/** The daemon's job registry: a bounded FIFO with idempotency keys and an expiry sweep.

    `submit` and the two halves of `run_next` (before and after the unlocked call of the job's
    function) are the registry's critical sections; any interleaving of them, by any number of
    runners, is a sequence of the operations below. */
module Jobs {
  import opened Common

  type Id = string
  type Key = string

  datatype Status = Queued | Running | DoneOk | DoneError

  datatype Job = Job(key: Option<Key>, status: Status, created: Time, finished: Time) {
    predicate Terminal() { status.DoneOk? || status.DoneError? }
  }

  datatype Limits = Limits(queueMax: int, ttl: Time)

  /** The registry's three collections, and its history: the last record of every job ever
      created, the ids in submission order, the ids in start order, and the latest clock reading. */
  datatype State = State(
    jobs: map<Id, Job>, byKey: map<Key, Id>, queue: seq<Id>,
    log: map<Id, Job>, submitted: seq<Id>, started: seq<Id>, clock: Time)

  const EMPTY := State(map[], map[], [], map[], [], [], 0.0)

  // ---------------------------------------------------------------- the critical sections

  function Expired(jobs: map<Id, Job>, ttl: Time, now: Time): set<Id> {
    set id | id in jobs && jobs[id].Terminal() && jobs[id].finished <= now - ttl
  }

  /** The sweep drops expired jobs, and the key of each one that its key still points at. */
  function Sweep(l: Limits, s: State, now: Time): State {
    var expired := Expired(s.jobs, l.ttl, now);
    s.(jobs := s.jobs - expired, byKey := ForgetKeys(s.byKey, s.jobs, expired))
  }

  function ForgetKeys(byKey: map<Key, Id>, jobs: map<Id, Job>, gone: set<Id>): map<Key, Id>
    requires gone <= jobs.Keys
  {
    map k | k in byKey && !(byKey[k] in gone && jobs[byKey[k]].key == Some(k)) :: byKey[k]
  }

  function Dedupe(l: Limits, s: State, key: Option<Key>, now: Time): Option<Id> {
    if key.None? || key.value !in s.byKey || s.byKey[key.value] !in s.jobs then None
    else
      var id := s.byKey[key.value];
      if !s.jobs[id].Terminal() || now - s.jobs[id].finished < l.ttl then Some(id) else None
  }

  datatype Reply = Existing(id: Id) | Busy | Created(id: Id)

  /** The sweep, the dedupe and the new job's creation each read the clock. */
  function Submit(l: Limits, s: State, key: Option<Key>, t1: Time, t2: Time, t3: Time, newId: Id): (Reply, State) {
    var swept := Sweep(l, s, t1).(clock := t3);
    var existing := Dedupe(l, swept, key, t2);
    if existing.Some? then (Existing(existing.value), swept)
    else if |s.queue| >= l.queueMax then (Busy, swept)
    else
      (Created(newId), Enqueue(swept, key, newId))
  }

  function Enqueue(s: State, key: Option<Key>, newId: Id): State {
    var job := Job(key, Queued, s.clock, 0.0);
    s.(jobs := s.jobs[newId := job],
       byKey := if key.Some? then s.byKey[key.value := newId] else s.byKey,
       queue := s.queue + [newId],
       log := s.log[newId := job],
       submitted := s.submitted + [newId])
  }

  function Record(s: State, id: Id, job: Job, now: Time): State {
    s.(jobs := if id in s.jobs then s.jobs[id := job] else s.jobs, log := s.log[id := job], clock := now)
  }

  datatype Taken = Nothing | Took(id: Id) | Missed(id: Id)

  /** The first half of `run_next`: take the oldest queued job.  `Missed` is the lookup error of a
      queued id without a job. */
  function Start(s: State, now: Time): (Taken, State) {
    if s.queue == [] then (Nothing, s)
    else
      var id := s.queue[0];
      var popped := s.(queue := s.queue[1..]);
      if id !in s.jobs then (Missed(id), popped)
      else (Took(id), Record(popped, id, s.jobs[id].(status := Running), now).(started := s.started + [id]))
  }

  /** The second half: the runner that took `id` records its outcome. */
  function Finish(s: State, id: Id, ok: bool, now: Time): State
    requires id in s.log
  {
    Record(s, id, s.log[id].(status := if ok then DoneOk else DoneError, finished := now), now)
  }

  // ---------------------------------------------------------------- what they keep

  predicate NoDuplicates<T(==)>(xs: seq<T>) {
    forall i, j | 0 <= i < j < |xs| :: xs[i] != xs[j]
  }

  /** The job's outcome is no longer answered for its key. */
  predicate OutOfDate(l: Limits, job: Job, now: Time) {
    (job.status.DoneOk? || job.status.DoneError?) && job.finished + l.ttl <= now
  }

  ghost predicate QueueInv(l: Limits, s: State) {
    && s.submitted == s.started + s.queue            // first in, first out; nothing lost
    && NoDuplicates(s.submitted)                     // so no job starts twice
    && (forall id :: id in s.submitted <==> id in s.log)
    && (forall id :: id in s.queue <==> id in s.log && s.log[id].status.Queued?)
    && |s.queue| <= if l.queueMax < 0 then 0 else l.queueMax
  }

  ghost predicate TableInv(l: Limits, s: State) {
    && (forall id :: id in s.jobs ==> id in s.log && s.jobs[id] == s.log[id])
    && (forall id :: id in s.log && id !in s.jobs ==> OutOfDate(l, s.log[id], s.clock))
  }

  predicate KeysPoint(byKey: map<Key, Id>, jobs: map<Id, Job>) {
    forall k :: k in byKey ==> byKey[k] in jobs && jobs[byKey[k]].key == Some(k)
  }

  ghost predicate KeyInv(l: Limits, s: State) {
    && KeysPoint(s.byKey, s.jobs)
    && (forall id :: id in s.log && s.log[id].key.Some? ==>
          || (s.log[id].key.value in s.byKey && s.byKey[s.log[id].key.value] == id)
          || OutOfDate(l, s.log[id], s.clock))
  }

  /** Of two jobs with one key, the later is created no earlier than the earlier one's finish plus
      the time to live. */
  ghost predicate SpacingInv(l: Limits, s: State)
    requires forall id :: id in s.submitted <==> id in s.log
  {
    forall i, j {:trigger s.submitted[i], s.submitted[j]} | 0 <= i < j < |s.submitted| ::
      var a, b := s.log[s.submitted[i]], s.log[s.submitted[j]];
      a.key.Some? && a.key == b.key ==> OutOfDate(l, a, b.created)
  }

  ghost predicate Inv(l: Limits, s: State) {
    QueueInv(l, s) && TableInv(l, s) && KeyInv(l, s) && SpacingInv(l, s)
  }

  datatype Op =
    | SubmitOp(key: Option<Key>, t1: Time, t2: Time, t3: Time, newId: Id)
    | StartOp(now: Time)
    | FinishOp(id: Id, ok: bool, now: Time)

  /** The clock does not run backwards, new ids are new, and a runner finishes a job it started. */
  predicate Legal(s: State, op: Op) {
    match op
    case SubmitOp(_, t1, t2, t3, newId) => s.clock <= t1 <= t2 <= t3 && newId !in s.log
    case StartOp(now) => s.clock <= now
    case FinishOp(id, _, now) => s.clock <= now && id in s.log && s.log[id].status.Running?
  }

  function Step(l: Limits, s: State, op: Op): State
    requires Legal(s, op)
  {
    match op
    case SubmitOp(key, t1, t2, t3, newId) => Submit(l, s, key, t1, t2, t3, newId).1
    case StartOp(now) => Start(s, now).1
    case FinishOp(id, ok, now) => Finish(s, id, ok, now)
  }

  /** Dequeuing never misses the job table. */
  lemma StartIsSafe(l: Limits, s: State)
    requires Inv(l, s)
    ensures s.queue != [] ==> s.queue[0] in s.jobs && s.jobs[s.queue[0]].status.Queued?
  {
    if s.queue != [] {
      assert s.queue[0] in s.queue;
    }
  }

  lemma SweepKeepsTable(l: Limits, s: State, t1: Time, t3: Time)
    requires TableInv(l, s) && s.clock <= t1 <= t3
    ensures TableInv(l, Sweep(l, s, t1).(clock := t3))
  {
  }

  lemma SweepKeeps(l: Limits, s: State, t1: Time, t3: Time)
    requires Inv(l, s) && s.clock <= t1 <= t3
    ensures Inv(l, Sweep(l, s, t1).(clock := t3))
  {
    SweepKeepsTable(l, s, t1, t3);
  }

  lemma SubmitKeeps(l: Limits, s: State, key: Option<Key>, t1: Time, t2: Time, t3: Time, newId: Id)
    requires Inv(l, s) && s.clock <= t1 <= t2 <= t3 && newId !in s.log
    ensures Inv(l, Submit(l, s, key, t1, t2, t3, newId).1)
  {
    SweepKeeps(l, s, t1, t3);
    var swept := Sweep(l, s, t1).(clock := t3);
    if Submit(l, s, key, t1, t2, t3, newId).0.Created? {
      EnqueueKeepsQueue(l, swept, key, newId);
      EnqueueKeepsTables(l, swept, key, newId);
      EnqueueKeepsSpacing(l, swept, key, newId);
    }
  }

  lemma EnqueueKeepsQueue(l: Limits, s: State, key: Option<Key>, newId: Id)
    requires QueueInv(l, s) && newId !in s.log && |s.queue| < l.queueMax
    ensures QueueInv(l, Enqueue(s, key, newId))
  {
    var s' := Enqueue(s, key, newId);
    assert s'.submitted == s'.started + s'.queue;
    assert newId !in s.submitted;
    assert forall id :: id in s'.submitted <==> id in s.submitted || id == newId;
    assert forall id :: id in s'.queue <==> id in s.queue || id == newId;
  }

  lemma EnqueueKeepsTables(l: Limits, s: State, key: Option<Key>, newId: Id)
    requires TableInv(l, s) && KeyInv(l, s) && newId !in s.log
    requires forall id :: id in s.log && key.Some? && s.log[id].key == key ==> OutOfDate(l, s.log[id], s.clock)
    ensures TableInv(l, Enqueue(s, key, newId)) && KeyInv(l, Enqueue(s, key, newId))
  {
  }

  lemma EnqueueKeepsSpacing(l: Limits, s: State, key: Option<Key>, newId: Id)
    requires QueueInv(l, s) && SpacingInv(l, s) && newId !in s.log && |s.queue| < l.queueMax
    requires forall id :: id in s.log && key.Some? && s.log[id].key == key ==> OutOfDate(l, s.log[id], s.clock)
    ensures QueueInv(l, Enqueue(s, key, newId)) && SpacingInv(l, Enqueue(s, key, newId))
  {
    EnqueueKeepsQueue(l, s, key, newId);
    var s' := Enqueue(s, key, newId);
    forall i, j | 0 <= i < j < |s'.submitted|
      ensures var a, b := s'.log[s'.submitted[i]], s'.log[s'.submitted[j]];
              a.key.Some? && a.key == b.key ==> OutOfDate(l, a, b.created)
    {
      assert s.submitted[i] in s.submitted && s.submitted[i] != newId;
      if j < |s.submitted| {
        assert s.submitted[j] in s.submitted && s.submitted[j] != newId;
      }
    }
  }

  /** Recording progress of a job that is not yet terminal: its key still points at it, so no
      later job has its key. */
  lemma RecordKeepsTables(l: Limits, s: State, id: Id, job: Job, now: Time)
    requires TableInv(l, s) && KeyInv(l, s) && s.clock <= now
    requires id in s.log && !s.log[id].Terminal() && job.key == s.log[id].key
    ensures TableInv(l, Record(s, id, job, now)) && KeyInv(l, Record(s, id, job, now))
  {
  }

  lemma RecordKeepsSpacing(l: Limits, s: State, id: Id, job: Job, now: Time)
    requires forall x :: x in s.submitted <==> x in s.log
    requires SpacingInv(l, s) && id in s.log && !s.log[id].Terminal()
    requires job.key == s.log[id].key && job.created == s.log[id].created
    ensures SpacingInv(l, Record(s, id, job, now))
  {
    var s' := Record(s, id, job, now);
    forall i, j | 0 <= i < j < |s'.submitted|
      ensures var a, b := s'.log[s'.submitted[i]], s'.log[s'.submitted[j]];
              a.key.Some? && a.key == b.key ==> OutOfDate(l, a, b.created)
    {
      var a, b := s.log[s.submitted[i]], s.log[s.submitted[j]];
      assert a.key.Some? && a.key == b.key ==> OutOfDate(l, a, b.created);
    }
  }

  lemma StartKeeps(l: Limits, s: State, now: Time)
    requires Inv(l, s) && s.clock <= now && s.queue != [] && s.queue[0] in s.jobs
    ensures Inv(l, Start(s, now).1)
  {
    StartIsSafe(l, s);
    var id := s.queue[0];
    var job := s.jobs[id].(status := Running);
    RecordKeepsTables(l, s, id, job, now);
    RecordKeepsSpacing(l, s, id, job, now);
    StartKeepsQueue(l, s, now);
    assert Start(s, now).1.log == Record(s, id, job, now).log;
  }

  lemma StartKeepsQueue(l: Limits, s: State, now: Time)
    requires QueueInv(l, s) && s.queue != [] && s.queue[0] in s.jobs && s.jobs[s.queue[0]] == s.log[s.queue[0]]
    ensures QueueInv(l, Start(s, now).1)
  {
    var s' := Start(s, now).1;
    var id := s.queue[0];
    assert s.queue == [id] + s.queue[1..];
    assert s'.submitted == s'.started + s'.queue;
    var n := |s.started|;
    assert s.submitted[n] == id;
    forall x
      ensures x in s'.queue <==> x in s.queue && x != id
    {
      if x in s'.queue {
        var i :| 0 <= i < |s'.queue| && s'.queue[i] == x;
        assert s.submitted[n + 1 + i] == x;
      }
    }
  }

  lemma FinishKeeps(l: Limits, s: State, id: Id, ok: bool, now: Time)
    requires Inv(l, s) && s.clock <= now && id in s.log && s.log[id].status.Running?
    ensures Inv(l, Finish(s, id, ok, now))
  {
    var job := s.log[id].(status := if ok then DoneOk else DoneError, finished := now);
    RecordKeepsTables(l, s, id, job, now);
    RecordKeepsSpacing(l, s, id, job, now);
    assert QueueInv(l, Finish(s, id, ok, now));
  }

  lemma StepKeeps(l: Limits, s: State, op: Op)
    requires Inv(l, s) && Legal(s, op)
    ensures Inv(l, Step(l, s, op))
  {
    match op {
      case SubmitOp(key, t1, t2, t3, newId) => SubmitKeeps(l, s, key, t1, t2, t3, newId);
      case StartOp(now) =>
        StartIsSafe(l, s);
        if s.queue != [] {
          StartKeeps(l, s, now);
        }
      case FinishOp(id, ok, now) => FinishKeeps(l, s, id, ok, now);
    }
  }

  // ---------------------------------------------------------------- whole runs

  predicate LegalRun(l: Limits, s: State, ops: seq<Op>)
    decreases |ops|
  {
    ops == [] || (Legal(s, ops[0]) && LegalRun(l, Step(l, s, ops[0]), ops[1..]))
  }

  function RunOps(l: Limits, s: State, ops: seq<Op>): State
    requires LegalRun(l, s, ops)
    decreases |ops|
  {
    if ops == [] then s else RunOps(l, Step(l, s, ops[0]), ops[1..])
  }

  lemma {:induction false} RunKeeps(l: Limits, s: State, ops: seq<Op>)
    requires Inv(l, s) && LegalRun(l, s, ops)
    ensures Inv(l, RunOps(l, s, ops))
    decreases |ops|
  {
    if ops != [] {
      StepKeeps(l, s, ops[0]);
      RunKeeps(l, Step(l, s, ops[0]), ops[1..]);
    }
  }

  /** After any interleaving from the empty registry, the queue is duplicate-free and within its
      bound, holds exactly the queued jobs, in submission order behind all started ones, and the
      next dequeue finds its job. */
  lemma QueueIsExact(l: Limits, ops: seq<Op>, now: Time)
    requires LegalRun(l, EMPTY, ops)
    ensures var s := RunOps(l, EMPTY, ops);
            && NoDuplicates(s.queue) && |s.queue| <= (if l.queueMax < 0 then 0 else l.queueMax)
            && (forall id :: id in s.queue <==> id in s.jobs && s.jobs[id].status.Queued?)
            && s.submitted == s.started + s.queue
            && !Start(s, now).0.Missed?
  {
    RunKeeps(l, EMPTY, ops);
    var s := RunOps(l, EMPTY, ops);
    StartIsSafe(l, s);
    QueueHasNoDuplicates(l, s);
    QueuedJobsArePresent(l, s);
  }

  lemma QueueHasNoDuplicates(l: Limits, s: State)
    requires QueueInv(l, s)
    ensures NoDuplicates(s.queue) && NoDuplicates(s.started)
    ensures s.queue != [] ==> s.queue[0] !in s.started
  {
    var n := |s.started|;
    assert forall i | 0 <= i < |s.queue| :: s.submitted[n + i] == s.queue[i];
    assert forall i | 0 <= i < n :: s.submitted[i] == s.started[i];
  }

  lemma QueuedJobsArePresent(l: Limits, s: State)
    requires QueueInv(l, s) && TableInv(l, s)
    ensures forall id :: id in s.queue <==> id in s.jobs && s.jobs[id].status.Queued?
  {
  }

  ghost predicate EarliestNotStarted(s: State, id: Id) {
    exists k | 0 <= k < |s.submitted| ::
      s.submitted[k] == id && id !in s.started && forall j | 0 <= j < k :: s.submitted[j] in s.started
  }

  lemma FirstQueuedIsEarliest(l: Limits, s: State)
    requires QueueInv(l, s) && s.queue != []
    ensures EarliestNotStarted(s, s.queue[0])
  {
    QueueHasNoDuplicates(l, s);
    var n := |s.started|;
    assert s.submitted[n] == s.queue[0];
    assert forall j | 0 <= j < n :: s.submitted[j] == s.started[j];
  }

  lemma EmptyQueueMeansNoneQueued(l: Limits, s: State)
    requires QueueInv(l, s)
    ensures s.queue == [] <==> forall id :: id in s.log ==> !s.log[id].status.Queued?
  {
    assert s.queue != [] ==> s.queue[0] in s.queue;
    assert forall id :: id in s.log && s.log[id].status.Queued? ==> id in s.queue;
  }

  lemma StartTakes(l: Limits, s: State, now: Time)
    requires Inv(l, s) && s.queue != []
    ensures var (taken, s') := Start(s, now);
            var id := s.queue[0];
            && taken == Took(id) && id in s.log && s.log[id].status.Queued?
            && s'.log == s.log[id := s.log[id].(status := Running)]
            && s'.started == s.started + [id] && s'.submitted == s.submitted
  {
    StartIsSafe(l, s);
    assert s.jobs[s.queue[0]] == s.log[s.queue[0]];
  }

  /** After any run the first half of `run_next` takes the earliest submitted job that has not been
      started, marks that one as running and no other, and enters it last in the start order; it takes
      one exactly if some job is queued, and otherwise changes nothing. */
  lemma StartIsExact(l: Limits, ops: seq<Op>, now: Time)
    requires LegalRun(l, EMPTY, ops) && RunOps(l, EMPTY, ops).clock <= now
    ensures var s := RunOps(l, EMPTY, ops);
            var (taken, s') := Start(s, now);
            if forall id :: id in s.log ==> !s.log[id].status.Queued? then taken == Nothing && s' == s
            else
              && taken.Took? && taken.id in s.log && s.log[taken.id].status.Queued?
              && EarliestNotStarted(s, taken.id)
              && s'.log == s.log[taken.id := s.log[taken.id].(status := Running)]
              && s'.started == s.started + [taken.id] && s'.submitted == s.submitted
  {
    RunKeeps(l, EMPTY, ops);
    var s := RunOps(l, EMPTY, ops);
    EmptyQueueMeansNoneQueued(l, s);
    if s.queue != [] {
      StartTakes(l, s, now);
      FirstQueuedIsEarliest(l, s);
    }
  }

  lemma SweptJobs(l: Limits, s: State, now: Time, id: Id)
    requires TableInv(l, s) && s.clock <= now
    ensures var s' := Sweep(l, s, now);
            && (id in s'.jobs <==> id in s.log && Remembered(l, s.log[id], now))
            && (id in s'.jobs ==> s'.jobs[id] == s.log[id])
  {
  }

  lemma SweptKeys(l: Limits, s: State, now: Time, k: Key)
    requires TableInv(l, s) && KeyInv(l, s) && s.clock <= now
    ensures var s' := Sweep(l, s, now);
            && (k in s'.byKey ==> s'.byKey[k] in s'.jobs && s'.jobs[s'.byKey[k]].key == Some(k))
            && (forall id :: id in s'.jobs && s'.jobs[id].key == Some(k) ==> k in s'.byKey && s'.byKey[k] == id)
  {
    forall id | id in Sweep(l, s, now).jobs
      ensures id in s.log && s.log[id] == s.jobs[id] && !OutOfDate(l, s.log[id], s.clock)
    {
      SweptJobs(l, s, now, id);
    }
  }

  /** After any run a submission leaves exactly the jobs of the history that are under way or finished
      less than the time to live before its sweep, and the new one; every key points at a job left,
      and every job left is pointed at, unless the new one took its key over. */
  lemma SweepIsExact(l: Limits, ops: seq<Op>, key: Option<Key>, t1: Time, t2: Time, t3: Time, newId: Id, id: Id, k: Key)
    requires LegalRun(l, EMPTY, ops) && Legal(RunOps(l, EMPTY, ops), SubmitOp(key, t1, t2, t3, newId))
    ensures var s := RunOps(l, EMPTY, ops);
            var (reply, s') := Submit(l, s, key, t1, t2, t3, newId);
            && (id in s'.jobs <==> (reply.Created? && id == newId) || (id in s.log && Remembered(l, s.log[id], t1)))
            && (id in s'.jobs && id != newId ==> s'.jobs[id] == s.log[id])
            && (k in s'.byKey ==> s'.byKey[k] in s'.jobs && s'.jobs[s'.byKey[k]].key == Some(k))
            && (id in s'.jobs && s'.jobs[id].key == Some(k) ==>
                  k in s'.byKey && (s'.byKey[k] == id || (reply.Created? && s'.byKey[k] == newId)))
  {
    RunKeeps(l, EMPTY, ops);
    var s := RunOps(l, EMPTY, ops);
    JobsAfterSubmit(l, s, key, t1, t2, t3, newId, id);
    KeysAfterSubmit(l, s, key, t1, t2, t3, newId, id, k);
  }

  lemma JobsAfterSubmit(l: Limits, s: State, key: Option<Key>, t1: Time, t2: Time, t3: Time, newId: Id, id: Id)
    requires TableInv(l, s) && s.clock <= t1
    ensures var (reply, s') := Submit(l, s, key, t1, t2, t3, newId);
            && (id in s'.jobs <==> (reply.Created? && id == newId) || (id in s.log && Remembered(l, s.log[id], t1)))
            && (id in s'.jobs && id != newId ==> s'.jobs[id] == s.log[id])
  {
    SweptJobs(l, s, t1, id);
    SubmitTables(l, s, key, t1, t2, t3, newId);
  }

  lemma KeysAfterSubmit(l: Limits, s: State, key: Option<Key>, t1: Time, t2: Time, t3: Time, newId: Id, id: Id, k: Key)
    requires TableInv(l, s) && KeyInv(l, s) && s.clock <= t1 && newId !in s.log
    ensures var (reply, s') := Submit(l, s, key, t1, t2, t3, newId);
            && (k in s'.byKey ==> s'.byKey[k] in s'.jobs && s'.jobs[s'.byKey[k]].key == Some(k))
            && (id in s'.jobs && s'.jobs[id].key == Some(k) ==>
                  k in s'.byKey && (s'.byKey[k] == id || (reply.Created? && s'.byKey[k] == newId)))
  {
    SweptKeys(l, s, t1, k);
    SweptJobs(l, s, t1, newId);
    SubmitTables(l, s, key, t1, t2, t3, newId);
  }

  /** What a submission does to the tables after its sweep. */
  lemma SubmitTables(l: Limits, s: State, key: Option<Key>, t1: Time, t2: Time, t3: Time, newId: Id)
    ensures var (reply, s') := Submit(l, s, key, t1, t2, t3, newId);
            var swept := Sweep(l, s, t1);
            if reply.Created? then
              && s'.jobs == swept.jobs[newId := Job(key, Queued, t3, 0.0)]
              && s'.byKey == if key.Some? then swept.byKey[key.value := newId] else swept.byKey
            else s'.jobs == swept.jobs && s'.byKey == swept.byKey
  {
  }

  predicate Remembered(l: Limits, job: Job, now: Time) {
    job.status.Queued? || job.status.Running? || now < job.finished + l.ttl
  }

  ghost predicate ExactKey(s: State, k: Key) {
    && (forall id ::
          id in s.log && (s.log[id].status.Queued? || s.log[id].status.Running?) && s.log[id].key == Some(k) ==>
            id in s.jobs && k in s.byKey && s.byKey[k] == id)
    && (k in s.byKey ==> s.byKey[k] in s.jobs && s.jobs[s.byKey[k]].key == Some(k))
  }

  lemma KeyIsExact(l: Limits, s: State, k: Key)
    requires TableInv(l, s) && KeyInv(l, s)
    ensures ExactKey(s, k)
  {
  }

  /** A queued or running job with a key is present, its key points at it, and so no other queued
      or running job has that key; conversely every key points at a present job with that key. */
  lemma KeysAreExact(l: Limits, ops: seq<Op>, k: Key)
    requires LegalRun(l, EMPTY, ops)
    ensures ExactKey(RunOps(l, EMPTY, ops), k)
  {
    RunKeeps(l, EMPTY, ops);
    KeyIsExact(l, RunOps(l, EMPTY, ops), k);
    hide ExactKey;
    hide TableInv;
    hide KeyInv;
  }

  /** Each job starts at most once, and a second job for a key is created no earlier than the finish
      of the first plus the time to live. */
  lemma JobsAreSpaced(l: Limits, ops: seq<Op>, i: nat, j: nat)
    requires LegalRun(l, EMPTY, ops)
    requires i < j < |RunOps(l, EMPTY, ops).submitted|
    ensures var s := RunOps(l, EMPTY, ops);
            && NoDuplicates(s.started) && s.submitted[i] in s.log && s.submitted[j] in s.log
            && var a, b := s.log[s.submitted[i]], s.log[s.submitted[j]];
               a.key.Some? && a.key == b.key ==>
                 (a.status.DoneOk? || a.status.DoneError?) && a.finished + l.ttl <= b.created
  {
    RunKeeps(l, EMPTY, ops);
    var s := RunOps(l, EMPTY, ops);
    QueueHasNoDuplicates(l, s);
    assert s.submitted[i] in s.submitted && s.submitted[j] in s.submitted;
    var a, b := s.log[s.submitted[i]], s.log[s.submitted[j]];
    assert a.key.Some? && a.key == b.key ==> OutOfDate(l, a, b.created);
  }

  /** The job answers a submission under `key`: it is under way, or done less than the time to live
      ago. */
  predicate Answers(l: Limits, job: Job, key: Option<Key>, now: Time) {
    key.Some? && job.key == key && (job.status.Queued? || job.status.Running? || now - job.finished < l.ttl)
  }

  /** The job of the history that answers is in both tables, and the sweep leaves it there. */
  lemma AnswerIsKept(l: Limits, s: State, key: Option<Key>, t1: Time, t2: Time, id: Id)
    requires TableInv(l, s) && KeyInv(l, s) && s.clock <= t1 <= t2
    requires id in s.log && Answers(l, s.log[id], key, t2)
    ensures var swept := Sweep(l, s, t1);
            key.value in swept.byKey && swept.byKey[key.value] == id && id in swept.jobs && swept.jobs[id] == s.log[id]
  {
    assert key.value in s.byKey && s.byKey[key.value] == id;
    assert id in s.jobs && id !in Expired(s.jobs, l.ttl, t1);
  }

  /** The sweep and the two tables together find exactly the job of the history that answers. */
  lemma DedupeFindsAnswer(l: Limits, s: State, key: Option<Key>, t1: Time, t2: Time, id: Id)
    requires TableInv(l, s) && KeyInv(l, s) && s.clock <= t1 <= t2 && id in s.log
    ensures Dedupe(l, Sweep(l, s, t1), key, t2) == Some(id) <==> Answers(l, s.log[id], key, t2)
  {
    if Answers(l, s.log[id], key, t2) {
      AnswerIsKept(l, s, key, t1, t2, id);
    }
  }

  /** What a submission leaves of the history. */
  lemma SubmitHistory(l: Limits, s: State, key: Option<Key>, t1: Time, t2: Time, t3: Time, newId: Id)
    ensures var (reply, s') := Submit(l, s, key, t1, t2, t3, newId);
            && (reply.Existing? ==> Dedupe(l, Sweep(l, s, t1), key, t2) == Some(reply.id))
            && (!reply.Existing? ==>
                  Dedupe(l, Sweep(l, s, t1), key, t2).None? && (reply == Busy <==> |s.queue| >= l.queueMax))
            && (if reply.Created?
                then reply.id == newId && s'.submitted == s.submitted + [newId]
                     && s'.log == s.log[newId := Job(key, Queued, t3, 0.0)]
                else s'.submitted == s.submitted && s'.log == s.log)
  {
    assert Dedupe(l, Sweep(l, s, t1).(clock := t3), key, t2) == Dedupe(l, Sweep(l, s, t1), key, t2);
  }

  /** After any run, a submission is answered by the one job of the whole history that is under way
      for its key or finished within the time to live; without one it is refused exactly when the
      queue is full, and otherwise enqueued as a new queued job. */
  lemma SubmitIsExact(l: Limits, ops: seq<Op>, key: Option<Key>, t1: Time, t2: Time, t3: Time, newId: Id)
    requires LegalRun(l, EMPTY, ops) && Legal(RunOps(l, EMPTY, ops), SubmitOp(key, t1, t2, t3, newId))
    ensures var s := RunOps(l, EMPTY, ops);
            var (reply, s') := Submit(l, s, key, t1, t2, t3, newId);
            && (forall id :: id in s.log ==> (reply == Existing(id) <==> Answers(l, s.log[id], key, t2)))
            && (reply.Existing? ==> reply.id in s.log)
            && (!reply.Existing? ==> (reply == Busy <==> |s.queue| >= l.queueMax))
            && (if reply.Created?
                then reply.id == newId && s'.submitted == s.submitted + [newId]
                     && s'.log == s.log[newId := Job(key, Queued, t3, 0.0)]
                else s'.submitted == s.submitted && s'.log == s.log)
  {
    RunKeeps(l, EMPTY, ops);
    var s := RunOps(l, EMPTY, ops);
    SubmitHistory(l, s, key, t1, t2, t3, newId);
    forall id | id in s.log
      ensures Dedupe(l, Sweep(l, s, t1), key, t2) == Some(id) <==> Answers(l, s.log[id], key, t2)
    {
      DedupeFindsAnswer(l, s, key, t1, t2, id);
    }
  }

  function StatusRank(s: Status): nat {
    match s
    case Queued => 0
    case Running => 1
    case DoneOk | DoneError => 2
  }

  /** How a job's record may move: queued, then running, then done or failed, then never again. */
  predicate Advances(a: Job, b: Job) {
    && a.key == b.key && a.created == b.created
    && (b == a || StatusRank(b.status) == StatusRank(a.status) + 1)
  }

  lemma StepAdvances(l: Limits, s: State, op: Op, id: Id)
    requires Inv(l, s) && Legal(s, op) && id in s.log
    ensures var s' := Step(l, s, op);
            && id in s'.log && Advances(s.log[id], s'.log[id])
            && s.submitted <= s'.submitted && s.started <= s'.started
            && (id in s'.started && id !in s.started <==> s.log[id].status.Queued? && s'.log[id].status.Running?)
            && (StatusRank(s'.log[id].status) == 2 && StatusRank(s.log[id].status) < 2 <==> op.FinishOp? && op.id == id)
            && (op.FinishOp? && op.id == id ==>
                  s'.log[id].finished == op.now && (s'.log[id].status.DoneOk? <==> op.ok))
  {
    match op {
      case StartOp(now) => StartAdvances(l, s, now, id);
      case _ => assert Step(l, s, op).started == s.started;
    }
  }

  lemma StartAdvances(l: Limits, s: State, now: Time, id: Id)
    requires Inv(l, s) && id in s.log
    ensures var s' := Start(s, now).1;
            && id in s'.log && Advances(s.log[id], s'.log[id]) && s.submitted == s'.submitted && s.started <= s'.started
            && !(StatusRank(s'.log[id].status) == 2 && StatusRank(s.log[id].status) < 2)
            && (id in s'.started && id !in s.started <==> s.log[id].status.Queued? && s'.log[id].status.Running?)
  {
    StartIsSafe(l, s);
    QueueHasNoDuplicates(l, s);
  }

  // ---------------------------------------------------------------- the registry object

  lemma DropOne(jobs: map<Id, Job>, gone: set<Id>, id: Id)
    ensures jobs - (gone + {id}) == jobs - gone - {id}
  {
  }

  lemma ForgetOne(byKey: map<Key, Id>, jobs: map<Id, Job>, gone: set<Id>, id: Id)
    requires gone + {id} <= jobs.Keys && id !in gone
    ensures var before, key := ForgetKeys(byKey, jobs, gone), jobs[id].key;
            ForgetKeys(byKey, jobs, gone + {id})
            == if key.Some? && key.value in before && before[key.value] == id then before - {key.value} else before
  {
  }

  class JobRegistry {
    const l: Limits
    var jobs: map<Id, Job>
    var byKey: map<Key, Id>
    var queue: seq<Id>
    ghost var log: map<Id, Job>
    ghost var submitted: seq<Id>
    ghost var started: seq<Id>
    ghost var clock: Time

    ghost function View(): State
      reads this
    {
      State(jobs, byKey, queue, log, submitted, started, clock)
    }

    constructor (l: Limits)
      ensures this.l == l && View() == EMPTY && Inv(l, View())
    {
      this.l := l;
      jobs, byKey, queue := map[], map[], [];
      log, submitted, started, clock := map[], [], [], 0.0;
    }

    method SubmitJob(key: Option<Key>, t1: Time, t2: Time, t3: Time, newId: Id) returns (reply: Reply)
      modifies this
      ensures (reply, View()) == Submit(l, old(View()), key, t1, t2, t3, newId)
    {
      SweepLocked(t1);
      clock := t3;
      var existing := DedupeLocked(key, t2);
      if existing.Some? {
        return Existing(existing.value);
      }
      if |queue| >= l.queueMax {
        return Busy;
      }
      var job := Job(key, Queued, t3, 0.0);
      jobs := jobs[newId := job];
      if key.Some? {
        byKey := byKey[key.value := newId];
      }
      queue := queue + [newId];
      log, submitted := log[newId := job], submitted + [newId];
      reply := Created(newId);
    }

    method SweepLocked(now: Time)
      modifies `jobs, `byKey
      ensures View() == Sweep(l, old(View()), now)
    {
      var cutoff := now - l.ttl;
      var expired := set id | id in jobs && jobs[id].Terminal() && jobs[id].finished <= cutoff;
      assert expired == Expired(jobs, l.ttl, now);
      ghost var jobs0, byKey0 := jobs, byKey;
      ghost var gone: set<Id> := {};
      var rest := expired;
      while rest != {}
        invariant gone + rest == expired && gone !! rest && expired <= jobs0.Keys
        invariant jobs == jobs0 - gone && byKey == ForgetKeys(byKey0, jobs0, gone)
        decreases |rest|
      {
        var id :| id in rest;
        DropJob(id, jobs0, byKey0, gone);
        rest, gone := rest - {id}, gone + {id};
      }
      assert gone == expired;
    }

    /** One expired job, and its key if that still points at it. */
    method DropJob(id: Id, ghost jobs0: map<Id, Job>, ghost byKey0: map<Key, Id>, ghost gone: set<Id>)
      requires gone + {id} <= jobs0.Keys && id !in gone
      requires jobs == jobs0 - gone && byKey == ForgetKeys(byKey0, jobs0, gone)
      modifies `jobs, `byKey
      ensures jobs == jobs0 - (gone + {id}) && byKey == ForgetKeys(byKey0, jobs0, gone + {id})
    {
      var key := jobs[id].key;
      DropOne(jobs0, gone, id);
      ForgetOne(byKey0, jobs0, gone, id);
      jobs := jobs - {id};
      if key.Some? && key.value in byKey && byKey[key.value] == id {
        byKey := byKey - {key.value};
      }
    }

    method DedupeLocked(key: Option<Key>, now: Time) returns (existing: Option<Id>)
      ensures existing == Dedupe(l, View(), key, now)
    {
      if key.None? || key.value !in byKey {
        return None;
      }
      var id := byKey[key.value];
      if id !in jobs {
        return None;
      }
      if !jobs[id].Terminal() {
        return Some(id);
      }
      if now - jobs[id].finished < l.ttl {
        return Some(id);
      }
      existing := None;
    }

    method RunNextStart(now: Time) returns (taken: Taken)
      modifies this
      ensures (taken, View()) == Start(old(View()), now)
    {
      if queue == [] {
        return Nothing;
      }
      var id := queue[0];
      queue := queue[1..];
      if id !in jobs {
        return Missed(id);
      }
      var job := jobs[id].(status := Running);
      jobs := jobs[id := job];
      log, started, clock := log[id := job], started + [id], now;
      taken := Took(id);
    }

    /** `job` is the record the runner has held since it took the job, in the table or not. */
    method RunNextFinish(id: Id, job: Job, ok: bool, now: Time)
      requires id in log && log[id] == job
      modifies this
      ensures View() == Finish(old(View()), id, ok, now)
    {
      var done := job.(status := if ok then DoneOk else DoneError, finished := now);
      if id in jobs {
        jobs := jobs[id := done];
      }
      log, clock := log[id := done], now;
    }
  }
}
