/** The idempotency cache: one dictionary per process over one shared store on disk, proved to
    answer like a single log.  Calls are sequential across processes (the store is written outside
    the action locks), and a process may restart between any two of them. */
module Idempotency {
  import opened Common

  type Key = string
  type Envelope = string

  datatype Entry = Entry(ts: Time, env: Envelope)

  type Cache = map<Key, Entry>

  predicate Young(e: Entry, now: Time, ttl: Time) {
    now - e.ts < ttl
  }

  // ---------------------------------------------------------------- the two tiers

  /** The answer, and the process's cache afterwards. */
  function Lookup(cache: Cache, disk: Cache, key: Key, now: Time, ttl: Time): (Option<Envelope>, Cache) {
    if key in cache && Young(cache[key], now, ttl) then (Some(cache[key].env), cache)
    else
      var cache' := cache - {key};
      if key in disk && Young(disk[key], now, ttl) then (Some(disk[key].env), cache'[key := disk[key]])
      else (None, cache')
  }

  function Sweep(m: Cache, now: Time, ttl: Time): Cache {
    map k | k in m && Young(m[k], now, ttl) :: m[k]
  }

  function StoreIn(m: Cache, key: Key, now: Time, env: Envelope, ttl: Time): Cache {
    Sweep(m, now, ttl)[key := Entry(now, env)]
  }

  // ---------------------------------------------------------------- the plain log

  datatype Stored = Stored(key: Key, entry: Entry)

  function Latest(log: seq<Stored>, key: Key): Option<Entry> {
    if log == [] then None
    else if log[|log| - 1].key == key then Some(log[|log| - 1].entry)
    else Latest(log[..|log| - 1], key)
  }

  /** The reference answer: the latest envelope stored for the key, if it is young. */
  function Answer(log: seq<Stored>, key: Key, now: Time, ttl: Time): Option<Envelope> {
    var latest := Latest(log, key);
    if latest.Some? && Young(latest.value, now, ttl) then Some(latest.value.env) else None
  }

  // ---------------------------------------------------------------- runs

  /** `ran` lists the bodies run under a key: when the lookup missed, when the body ended, and the
      envelope it returned (None: it raised). */
  datatype Ran = Ran(key: Key, looked: Time, ended: Time, env: Option<Envelope>)

  datatype State = State(caches: map<nat, Cache>, disk: Cache, log: seq<Stored>, ran: seq<Ran>, clock: Time)

  const EMPTY := State(map[], map[], [], [], 0.0)

  datatype Op =
    | RunAction(process: nat, key: Option<Key>, looked: Time, ended: Time, body: Option<Envelope>)
    | Restart(process: nat)

  predicate Legal(s: State, op: Op) {
    op.RunAction? ==> s.clock <= op.looked <= op.ended
  }

  function CacheOf(s: State, process: nat): Cache {
    if process in s.caches then s.caches[process] else map[]
  }

  /** How a call ends: by the replay of a stored envelope, or like its body. */
  datatype Outcome = Replayed(env: Envelope) | Returned(env: Envelope) | Raised

  function BodyOutcome(body: Option<Envelope>): Outcome {
    if body.Some? then Returned(body.value) else Raised
  }

  /** `run_action`: replay a young envelope, or run the body and store the envelope it returns.  A
      body that raises takes the call with it, and nothing is stored. */
  function Next(ttl: Time, s: State, op: Op): State
    requires Legal(s, op)
  {
    match op
    case Restart(p) => s.(caches := s.caches - {p})
    case RunAction(p, key, looked, ended, body) =>
      if key.None? then s.(clock := ended)
      else
        var k := key.value;
        var (hit, cache) := Lookup(CacheOf(s, p), s.disk, k, looked, ttl);
        var s' := s.(caches := s.caches[p := cache]);
        if hit.Some? then s'.(clock := looked)
        else if body.None? then s'.(ran := s.ran + [Ran(k, looked, ended, None)], clock := ended)
        else s'.(
            caches := s.caches[p := StoreIn(cache, k, ended, body.value, ttl)],
            disk := StoreIn(s.disk, k, ended, body.value, ttl),
            log := s.log + [Stored(k, Entry(ended, body.value))],
            ran := s.ran + [Ran(k, looked, ended, body)],
            clock := ended)
  }

  function OutcomeOf(ttl: Time, s: State, op: Op): Outcome
    requires op.RunAction?
  {
    if op.key.None? then BodyOutcome(op.body)
    else
      var hit := Lookup(CacheOf(s, op.process), s.disk, op.key.value, op.looked, ttl).0;
      if hit.Some? then Replayed(hit.value) else BodyOutcome(op.body)
  }

  // ---------------------------------------------------------------- what every call keeps

  /** An entry of a tier is the latest one for its key, or too old ever to be answered. */
  ghost predicate TierInv(ttl: Time, log: seq<Stored>, clock: Time, m: Cache) {
    forall k :: k in m ==> Latest(log, k) == Some(m[k]) || m[k].ts + ttl <= clock
  }

  /** The disk has every latest entry that is still young. */
  ghost predicate DiskInv(ttl: Time, log: seq<Stored>, clock: Time, disk: Cache) {
    forall k :: Latest(log, k).Some? ==>
      (k in disk && disk[k] == Latest(log, k).value) || Latest(log, k).value.ts + ttl <= clock
  }

  /** What the bodies that returned have left behind, in order. */
  function Logged(ran: seq<Ran>): seq<Stored> {
    if ran == [] then []
    else
      var last := ran[|ran| - 1];
      Logged(ran[..|ran| - 1]) + if last.env.Some? then [Stored(last.key, Entry(last.ended, last.env.value))] else []
  }

  /** Every body that returned left an envelope at least as late as its own. */
  ghost predicate RanInv(log: seq<Stored>, clock: Time, ran: seq<Ran>) {
    && log == Logged(ran)
    && forall i | 0 <= i < |ran| && ran[i].env.Some? ::
         Latest(log, ran[i].key).Some? && ran[i].ended <= Latest(log, ran[i].key).value.ts <= clock
  }

  /** After a body of the key that returned, none begins within the time to live. */
  ghost predicate SpacedRuns(ttl: Time, ran: seq<Ran>) {
    forall i, j | 0 <= i < j < |ran| ::
      ran[i].env.Some? && ran[i].key == ran[j].key ==> ran[i].ended + ttl <= ran[j].looked
  }

  ghost predicate Inv(ttl: Time, s: State) {
    && TierInv(ttl, s.log, s.clock, s.disk)
    && (forall p :: p in s.caches ==> TierInv(ttl, s.log, s.clock, s.caches[p]))
    && DiskInv(ttl, s.log, s.clock, s.disk)
    && RanInv(s.log, s.clock, s.ran)
    && SpacedRuns(ttl, s.ran)
  }

  lemma LatestAfterStore(log: seq<Stored>, x: Stored, k: Key)
    ensures Latest(log + [x], k) == if x.key == k then Some(x.entry) else Latest(log, k)
  {
    assert (log + [x])[..|log|] == log;
  }

  /** Both tiers together answer like the log. */
  lemma TiersRefineLog(ttl: Time, log: seq<Stored>, clock: Time, cache: Cache, disk: Cache, k: Key, now: Time)
    requires TierInv(ttl, log, clock, cache) && TierInv(ttl, log, clock, disk) && DiskInv(ttl, log, clock, disk)
    requires clock <= now
    ensures Lookup(cache, disk, k, now, ttl).0 == Answer(log, k, now, ttl)
  {
  }

  /** ... whatever process asks. */
  lemma LookupRefinesLog(ttl: Time, s: State, p: nat, k: Key, now: Time)
    requires Inv(ttl, s) && s.clock <= now
    ensures Lookup(CacheOf(s, p), s.disk, k, now, ttl).0 == Answer(s.log, k, now, ttl)
  {
    TiersRefineLog(ttl, s.log, s.clock, CacheOf(s, p), s.disk, k, now);
  }

  lemma LookupKeepsTier(ttl: Time, log: seq<Stored>, clock: Time, cache: Cache, disk: Cache, k: Key, now: Time)
    requires TierInv(ttl, log, clock, cache) && TierInv(ttl, log, clock, disk)
    ensures TierInv(ttl, log, clock, Lookup(cache, disk, k, now, ttl).1)
  {
  }

  /** A store that follows a miss makes stale whatever a tier held for the key. */
  lemma StoreKeepsTier(ttl: Time, log: seq<Stored>, clock: Time, m: Cache, x: Stored, looked: Time)
    requires TierInv(ttl, log, clock, m) && clock <= looked <= x.entry.ts
    requires Answer(log, x.key, looked, ttl).None?
    ensures TierInv(ttl, log + [x], x.entry.ts, m)
    ensures TierInv(ttl, log + [x], x.entry.ts, StoreIn(m, x.key, x.entry.ts, x.entry.env, ttl))
  {
    forall k
      ensures Latest(log + [x], k) == if x.key == k then Some(x.entry) else Latest(log, k)
    {
      LatestAfterStore(log, x, k);
    }
  }

  lemma StoreKeepsDisk(ttl: Time, log: seq<Stored>, clock: Time, disk: Cache, x: Stored)
    requires DiskInv(ttl, log, clock, disk) && clock <= x.entry.ts
    ensures DiskInv(ttl, log + [x], x.entry.ts, StoreIn(disk, x.key, x.entry.ts, x.entry.env, ttl))
  {
    forall k
      ensures Latest(log + [x], k) == if x.key == k then Some(x.entry) else Latest(log, k)
    {
      LatestAfterStore(log, x, k);
    }
  }

  function LogAfter(log: seq<Stored>, x: Ran): seq<Stored> {
    if x.env.Some? then log + [Stored(x.key, Entry(x.ended, x.env.value))] else log
  }

  lemma LoggedNext(ran: seq<Ran>, x: Ran)
    ensures Logged(ran + [x]) == LogAfter(Logged(ran), x)
  {
    assert (ran + [x])[..|ran|] == ran;
  }

  lemma LatestAfterRun(log: seq<Stored>, x: Ran, k: Key)
    ensures Latest(LogAfter(log, x), k)
            == if x.env.Some? && x.key == k then Some(Entry(x.ended, x.env.value)) else Latest(log, k)
  {
    if x.env.Some? {
      LatestAfterStore(log, Stored(x.key, Entry(x.ended, x.env.value)), k);
    }
  }

  lemma RunKeepsRan(log: seq<Stored>, clock: Time, ran: seq<Ran>, x: Ran)
    requires RanInv(log, clock, ran) && clock <= x.ended
    ensures RanInv(LogAfter(log, x), x.ended, ran + [x])
  {
    LoggedNext(ran, x);
    var ran' := ran + [x];
    forall i | 0 <= i < |ran'| && ran'[i].env.Some?
      ensures && Latest(LogAfter(log, x), ran'[i].key).Some?
              && ran'[i].ended <= Latest(LogAfter(log, x), ran'[i].key).value.ts <= x.ended
    {
      LatestAfterRun(log, x, ran'[i].key);
    }
  }

  lemma MissKeepsSpacing(ttl: Time, log: seq<Stored>, clock: Time, ran: seq<Ran>, x: Ran)
    requires RanInv(log, clock, ran) && SpacedRuns(ttl, ran)
    requires Answer(log, x.key, x.looked, ttl).None?
    ensures SpacedRuns(ttl, ran + [x])
  {
    var ran' := ran + [x];
    forall i, j | 0 <= i < j < |ran'| && ran'[i].env.Some? && ran'[i].key == ran'[j].key
      ensures ran'[i].ended + ttl <= ran'[j].looked
    {
      assert ran'[i] == ran[i];
      assert j < |ran| ==> ran'[j] == ran[j];
    }
  }

  lemma LookupKeeps(ttl: Time, s: State, op: Op)
    requires Inv(ttl, s) && Legal(s, op) && op.RunAction? && op.key.Some? && OutcomeOf(ttl, s, op).Replayed?
    ensures Inv(ttl, Next(ttl, s, op))
  {
    LookupKeepsTier(ttl, s.log, s.clock, CacheOf(s, op.process), s.disk, op.key.value, op.looked);
  }

  /** A raising body leaves the tiers as the lookup left them. */
  lemma RaiseKeeps(ttl: Time, s: State, op: Op)
    requires Inv(ttl, s) && Legal(s, op) && op.RunAction? && op.key.Some? && OutcomeOf(ttl, s, op).Raised?
    ensures Inv(ttl, Next(ttl, s, op))
  {
    var k, p := op.key.value, op.process;
    LookupRefinesLog(ttl, s, p, k, op.looked);
    LookupKeepsTier(ttl, s.log, s.clock, CacheOf(s, p), s.disk, k, op.looked);
    RunKeepsRan(s.log, s.clock, s.ran, Ran(k, op.looked, op.ended, None));
    MissKeepsSpacing(ttl, s.log, s.clock, s.ran, Ran(k, op.looked, op.ended, None));
  }

  lemma StoreKeeps(ttl: Time, s: State, op: Op)
    requires Inv(ttl, s) && Legal(s, op) && op.RunAction? && op.key.Some? && OutcomeOf(ttl, s, op).Returned?
    ensures Inv(ttl, Next(ttl, s, op))
  {
    var k, p := op.key.value, op.process;
    var x := Stored(k, Entry(op.ended, op.body.value));
    var s' := Next(ttl, s, op);
    LookupRefinesLog(ttl, s, p, k, op.looked);
    LookupKeepsTier(ttl, s.log, s.clock, CacheOf(s, p), s.disk, k, op.looked);
    StoreKeepsTier(ttl, s.log, s.clock, Lookup(CacheOf(s, p), s.disk, k, op.looked, ttl).1, x, op.looked);
    StoreKeepsTier(ttl, s.log, s.clock, s.disk, x, op.looked);
    StoreKeepsDisk(ttl, s.log, s.clock, s.disk, x);
    RunKeepsRan(s.log, s.clock, s.ran, Ran(k, op.looked, op.ended, op.body));
    MissKeepsSpacing(ttl, s.log, s.clock, s.ran, Ran(k, op.looked, op.ended, op.body));
    forall q | q in s'.caches
      ensures TierInv(ttl, s'.log, s'.clock, s'.caches[q])
    {
      if q != p {
        StoreKeepsTier(ttl, s.log, s.clock, s.caches[q], x, op.looked);
      }
    }
  }

  lemma StepKeeps(ttl: Time, s: State, op: Op)
    requires Inv(ttl, s) && Legal(s, op)
    ensures Inv(ttl, Next(ttl, s, op))
  {
    if op.RunAction? && op.key.Some? {
      match OutcomeOf(ttl, s, op) {
        case Replayed(_) => LookupKeeps(ttl, s, op);
        case Returned(_) => StoreKeeps(ttl, s, op);
        case Raised => RaiseKeeps(ttl, s, op);
      }
    }
  }

  predicate LegalRun(ttl: Time, s: State, ops: seq<Op>)
    decreases |ops|
  {
    ops == [] || (Legal(s, ops[0]) && LegalRun(ttl, Next(ttl, s, ops[0]), ops[1..]))
  }

  function Run(ttl: Time, s: State, ops: seq<Op>): State
    requires LegalRun(ttl, s, ops)
    decreases |ops|
  {
    if ops == [] then s else Run(ttl, Next(ttl, s, ops[0]), ops[1..])
  }

  lemma {:induction false} RunKeeps(ttl: Time, s: State, ops: seq<Op>)
    requires Inv(ttl, s) && LegalRun(ttl, s, ops)
    ensures Inv(ttl, Run(ttl, s, ops))
    decreases |ops|
  {
    if ops != [] {
      StepKeeps(ttl, s, ops[0]);
      RunKeeps(ttl, Next(ttl, s, ops[0]), ops[1..]);
    }
  }

  /** After any sequence of calls and restarts, a call under a key replays exactly what one log of
      all returned envelopes answers; otherwise it runs its body, and the log grows by the envelope
      that the body returns, if it returns one. */
  lemma CacheRefinesLog(ttl: Time, ops: seq<Op>, p: nat, k: Key, looked: Time, ended: Time, body: Option<Envelope>)
    requires LegalRun(ttl, EMPTY, ops)
    requires Run(ttl, EMPTY, ops).clock <= looked <= ended
    ensures var s := Run(ttl, EMPTY, ops);
            var op := RunAction(p, Some(k), looked, ended, body);
            var answer, outcome, s' := Answer(s.log, k, looked, ttl), OutcomeOf(ttl, s, op), Next(ttl, s, op);
            && outcome == (if answer.Some? then Replayed(answer.value) else BodyOutcome(body))
            && s'.log == s.log + (if outcome.Returned? then [Stored(k, Entry(ended, outcome.env))] else [])
            && s'.ran == s.ran + (if outcome.Replayed? then [] else [Ran(k, looked, ended, body)])
  {
    RunKeeps(ttl, EMPTY, ops);
    LookupRefinesLog(ttl, Run(ttl, EMPTY, ops), p, k, looked);
  }

  /** Restarting a process changes no answer, neither its own nor another's. */
  lemma RestartIsInvisible(ttl: Time, ops: seq<Op>, restarted: nat, p: nat, k: Key, now: Time)
    requires LegalRun(ttl, EMPTY, ops) && Run(ttl, EMPTY, ops).clock <= now
    ensures var s := Run(ttl, EMPTY, ops);
            var s' := Next(ttl, s, Restart(restarted));
            Lookup(CacheOf(s', p), s'.disk, k, now, ttl).0 == Lookup(CacheOf(s, p), s.disk, k, now, ttl).0
  {
    RunKeeps(ttl, EMPTY, ops);
    var s := Run(ttl, EMPTY, ops);
    StepKeeps(ttl, s, Restart(restarted));
    LookupRefinesLog(ttl, s, p, k, now);
    LookupRefinesLog(ttl, Next(ttl, s, Restart(restarted)), p, k, now);
  }

  /** After a body of a key that returned, no body of that key begins within the time to live. */
  lemma BodiesAreSpaced(ttl: Time, ops: seq<Op>)
    requires LegalRun(ttl, EMPTY, ops)
    ensures SpacedRuns(ttl, Run(ttl, EMPTY, ops).ran)
  {
    RunKeeps(ttl, EMPTY, ops);
  }

  /** A body of the key returned less than the time to live before `now`. */
  predicate ReturnedLately(ttl: Time, ran: seq<Ran>, k: Key, now: Time) {
    exists i | 0 <= i < |ran| :: ran[i].key == k && ran[i].env.Some? && now - ran[i].ended < ttl
  }

  /** The latest envelope of a key was left by some body that returned. */
  lemma {:induction false} LatestReturned(ran: seq<Ran>, k: Key) returns (i: nat)
    requires Latest(Logged(ran), k).Some?
    ensures i < |ran| && ran[i].key == k && ran[i].env.Some? && ran[i].ended == Latest(Logged(ran), k).value.ts
  {
    var front, last := ran[..|ran| - 1], ran[|ran| - 1];
    assert ran == front + [last];
    LoggedNext(front, last);
    LatestAfterRun(Logged(front), last, k);
    if last.env.Some? && last.key == k {
      i := |ran| - 1;
    } else {
      i := LatestReturned(front, k);
    }
  }

  /** When exactly a keyed call runs its body, whichever process makes it: when no body of that key
      returned less than the time to live ago.  Bodies that raised do not count. */
  lemma BodyRunsExactly(ttl: Time, ops: seq<Op>, p: nat, k: Key, looked: Time, ended: Time, body: Option<Envelope>)
    requires LegalRun(ttl, EMPTY, ops)
    requires Run(ttl, EMPTY, ops).clock <= looked <= ended
    ensures var s := Run(ttl, EMPTY, ops);
            OutcomeOf(ttl, s, RunAction(p, Some(k), looked, ended, body)).Replayed?
            <==> ReturnedLately(ttl, s.ran, k, looked)
  {
    CacheRefinesLog(ttl, ops, p, k, looked, ended, body);
    RunKeeps(ttl, EMPTY, ops);
    var s := Run(ttl, EMPTY, ops);
    if Latest(s.log, k).Some? {
      var i := LatestReturned(s.ran, k);
      assert Answer(s.log, k, looked, ttl).Some? ==> ReturnedLately(ttl, s.ran, k, looked);
    }
  }

  /** So a key does not keep a body from running again, however soon after, if it raised before. */
  lemma RaisingBodyRunsAgain(ttl: Time, p: nat, q: nat, k: Key, t: Time, u: Time)
    requires 0.0 <= t <= u
    ensures var ops := [RunAction(p, Some(k), t, t, None), RunAction(q, Some(k), u, u, None)];
            LegalRun(ttl, EMPTY, ops) && Run(ttl, EMPTY, ops).ran == [Ran(k, t, t, None), Ran(k, u, u, None)]
  {
    var first, second := RunAction(p, Some(k), t, t, None), RunAction(q, Some(k), u, u, None);
    var s := Next(ttl, EMPTY, first);
    assert [first, second][1..] == [second] && [second][1..] == [];
    assert LegalRun(ttl, s, [second]);
    assert CacheOf(s, q) == map[];
    assert Run(ttl, s, [second]) == Next(ttl, s, second);
  }

  // ---------------------------------------------------------------- what one step leaves

  /** `m'` is what `m` holds that is younger than the time to live, for keys other than `except`. */
  ghost predicate KeepsYoung(m: Cache, m': Cache, now: Time, ttl: Time, except: set<Key>) {
    && (forall k | k !in except :: k in m' <==> k in m && now - m[k].ts < ttl)
    && (forall k | k !in except && k in m' :: m'[k] == m[k])
  }

  /** A lookup answers from memory or from disk, leaves in memory the entry it answered from and
      none if it did not answer, and touches no other key. */
  ghost predicate LooksUp(cache: Cache, disk: Cache, key: Key, now: Time, ttl: Time, hit: Option<Envelope>,
                          cache': Cache)
  {
    && (key in cache' <==> hit.Some?)
    && (hit.Some? <==>
          (key in cache && now - cache[key].ts < ttl) || (key in disk && now - disk[key].ts < ttl))
    && (hit.Some? ==>
          && hit.value == cache'[key].env
          && cache'[key] == if key in cache && now - cache[key].ts < ttl then cache[key] else disk[key])
    && cache' - {key} == cache - {key}
  }

  lemma LookupLooksUp(cache: Cache, disk: Cache, key: Key, now: Time, ttl: Time)
    ensures var (hit, cache') := Lookup(cache, disk, key, now, ttl); LooksUp(cache, disk, key, now, ttl, hit, cache')
  {
    var cache' := Lookup(cache, disk, key, now, ttl).1;
    assert cache' - {key} == cache - {key};
  }

  ghost predicate OtherCachesStay(s: State, s': State, process: nat) {
    forall q: nat :: q != process ==> CacheOf(s', q) == CacheOf(s, q)
  }

  /** A keyed call that ends by `outcome`, and what it leaves in its process's memory and on disk. */
  ghost predicate CallLeaves(ttl: Time, s: State, p: nat, k: Key, looked: Time, ended: Time, outcome: Outcome,
                             s': State)
  {
    var cache, cache' := CacheOf(s, p), CacheOf(s', p);
    match outcome
    case Replayed(env) =>
      LooksUp(cache, s.disk, k, looked, ttl, Some(env), cache') && s'.disk == s.disk && s'.clock == looked
    case Raised =>
      LooksUp(cache, s.disk, k, looked, ttl, None, cache') && s'.disk == s.disk && s'.clock == ended
    case Returned(env) =>
      && KeepsYoung(cache, cache', ended, ttl, {k}) && k in cache' && cache'[k] == Entry(ended, env)
      && KeepsYoung(s.disk, s'.disk, ended, ttl, {k}) && k in s'.disk && s'.disk[k] == Entry(ended, env)
      && s'.clock == ended
  }

  /** From `s` to `s'`: a restart empties the memory of its process and nothing else; a call without
      a key touches neither tier; a call with one touches its process's memory and the disk only. */
  ghost predicate Leaves(ttl: Time, s: State, op: Op, outcome: Outcome, s': State) {
    && OtherCachesStay(s, s', op.process)
    && match op
       case Restart(p) =>
         CacheOf(s', p) == map[] && s'.disk == s.disk && s'.log == s.log && s'.ran == s.ran && s'.clock == s.clock
       case RunAction(p, None, looked, ended, body) =>
         && outcome == BodyOutcome(body)
         && CacheOf(s', p) == CacheOf(s, p) && s'.disk == s.disk && s'.log == s.log && s'.ran == s.ran
         && s'.clock == ended
       case RunAction(p, Some(k), looked, ended, body) => CallLeaves(ttl, s, p, k, looked, ended, outcome, s')
  }

  lemma CallLeavesExactly(ttl: Time, s: State, p: nat, k: Key, looked: Time, ended: Time, body: Option<Envelope>)
    requires Legal(s, RunAction(p, Some(k), looked, ended, body))
    ensures var op := RunAction(p, Some(k), looked, ended, body);
            CallLeaves(ttl, s, p, k, looked, ended, OutcomeOf(ttl, s, op), Next(ttl, s, op))
  {
    LookupLooksUp(CacheOf(s, p), s.disk, k, looked, ttl);
    var cache := Lookup(CacheOf(s, p), s.disk, k, looked, ttl).1;
    assert forall x | x != k :: x in cache <==> x in cache - {k};
    assert forall x | x != k :: x in CacheOf(s, p) <==> x in CacheOf(s, p) - {k};
  }

  /** What every step leaves in the tiers of all processes. */
  lemma StepLeavesExactly(ttl: Time, s: State, op: Op)
    requires Legal(s, op)
    ensures Leaves(ttl, s, op, if op.RunAction? then OutcomeOf(ttl, s, op) else Raised, Next(ttl, s, op))
  {
    if op.RunAction? && op.key.Some? {
      CallLeavesExactly(ttl, s, op.process, op.key.value, op.looked, op.ended, op.body);
    }
  }

  // ---------------------------------------------------------------- the code of one process

  lemma DropOne(m: Cache, gone: set<Key>, k: Key)
    ensures m - (gone + {k}) == m - gone - {k}
  {
  }

  lemma SweepDrops(m: Cache, now: Time, ttl: Time)
    ensures m - (set k | k in m && now - m[k].ts >= ttl) == Sweep(m, now, ttl)
  {
  }

  /** The store every process reads and writes. */
  class DiskStore {
    var entries: Cache

    constructor ()
      ensures entries == map[]
    {
      entries := map[];
    }
  }

  class Process {
    const ttl: Time
    const store: DiskStore
    var cache: Cache

    constructor (ttl: Time, store: DiskStore)
      ensures this.ttl == ttl && this.store == store && cache == map[]
    {
      this.ttl, this.store := ttl, store;
      cache := map[];
    }

    method LookupKey(key: Key, now: Time) returns (hit: Option<Envelope>)
      modifies this
      ensures (hit, cache) == Lookup(old(cache), store.entries, key, now, ttl)
      ensures LooksUp(old(cache), store.entries, key, now, ttl, hit, cache)
    {
      LookupLooksUp(cache, store.entries, key, now, ttl);
      if key in cache {
        var entry := cache[key];
        if now - entry.ts < ttl {
          return Some(entry.env);
        }
        cache := cache - {key};
      }
      assert cache == old(cache) - {key};
      if key in store.entries {
        var entry := store.entries[key];
        if now - entry.ts < ttl {
          cache := cache[key := entry];
          return Some(entry.env);
        }
      }
      hit := None;
    }

    method SweepCache(now: Time)
      modifies this
      ensures cache == Sweep(old(cache), now, ttl) && KeepsYoung(old(cache), cache, now, ttl, {})
    {
      var expired := set k | k in cache && now - cache[k].ts >= ttl;
      ghost var cache0, all := cache, expired;
      ghost var gone: set<Key> := {};
      while expired != {}
        invariant gone + expired == all && gone !! expired
        invariant cache == cache0 - gone
        decreases |expired|
      {
        var k :| k in expired;
        DropOne(cache0, gone, k);
        cache := cache - {k};
        expired, gone := expired - {k}, gone + {k};
      }
      assert gone == all;
      SweepDrops(cache0, now, ttl);
    }

    method StoreKey(key: Key, now: Time, env: Envelope)
      modifies this, store
      ensures cache == StoreIn(old(cache), key, now, env, ttl)
      ensures store.entries == StoreIn(old(store.entries), key, now, env, ttl)
      ensures KeepsYoung(old(cache), cache, now, ttl, {key}) && key in cache && cache[key] == Entry(now, env)
      ensures KeepsYoung(old(store.entries), store.entries, now, ttl, {key})
      ensures key in store.entries && store.entries[key] == Entry(now, env)
    {
      SweepCache(now);
      cache := cache[key := Entry(now, env)];
      var kept := map k | k in store.entries && now - store.entries[k].ts < ttl :: store.entries[k];
      store.entries := kept[key := Entry(now, env)];
    }

    /** `run_action` around a body that returns an envelope or raises; as process `p` of state `s` it
        is a step of the protocol. */
    method RunActionKeyed(key: Option<Key>, looked: Time, ended: Time, body: Option<Envelope>,
                          ghost s: State, ghost p: nat)
      returns (outcome: Outcome)
      modifies this, store
      ensures var op := RunAction(p, key, looked, ended, body);
              old(cache) == CacheOf(s, p) && old(store.entries) == s.disk && Legal(s, op) ==>
                && outcome == OutcomeOf(ttl, s, op)
                && cache == CacheOf(Next(ttl, s, op), p) && store.entries == Next(ttl, s, op).disk
      ensures key.None? ==>
                outcome == BodyOutcome(body) && cache == old(cache) && store.entries == old(store.entries)
      ensures key.Some? ==>
                var (hit, cache') := Lookup(old(cache), old(store.entries), key.value, looked, ttl);
                && outcome == (if hit.Some? then Replayed(hit.value) else BodyOutcome(body))
                && (!outcome.Returned? ==> cache == cache' && store.entries == old(store.entries))
                && (outcome.Returned? ==>
                      && cache == StoreIn(cache', key.value, ended, outcome.env, ttl)
                      && store.entries == StoreIn(old(store.entries), key.value, ended, outcome.env, ttl))
    {
      if key.Some? {
        var hit := LookupKey(key.value, looked);
        if hit.Some? {
          return Replayed(hit.value);
        }
      }
      if body.None? {
        return Raised;
      }
      if key.Some? {
        StoreKey(key.value, ended, body.value);
      }
      outcome := Returned(body.value);
    }
  }
}
