/** Bucketed sliding-window rate limiting, and the two-lock funnel that feeds it.

    Any number of threads in any number of processes take steps in any order.  A thread holds its
    process's thread lock and the machine-wide file lock while it checks, acts and saves. */
module RateLimit {
  import opened Common

  // ---------------------------------------------------------------- ratelimit.py

  datatype Entry = Entry(bucket: string, ts: Time)

  const WINDOW: Time := 60.0

  function BucketsFor(verb: string, level: Risk): seq<string> {
    ["global", verb] + if level.High? || level.Critical? then ["high_risk"] else []
  }

  function Prune(history: seq<Entry>, now: Time): seq<Entry> {
    if history == [] then []
    else
      var last := history[|history| - 1];
      Prune(history[..|history| - 1], now) + if now - last.ts <= WINDOW then [last] else []
  }

  function Count(history: seq<Entry>, bucket: string): nat {
    if history == [] then 0
    else Count(history[..|history| - 1], bucket) + if history[|history| - 1].bucket == bucket then 1 else 0
  }

  /** The first bucket that is full, or None. */
  function FullBucket(recent: seq<Entry>, buckets: seq<string>, limits: map<string, int>): Option<string> {
    if buckets == [] then None
    else if buckets[0] in limits && Count(recent, buckets[0]) >= limits[buckets[0]] then Some(buckets[0])
    else FullBucket(recent, buckets[1..], limits)
  }

  function Check(history: seq<Entry>, verb: string, level: Risk, limits: map<string, int>, now: Time): Option<string> {
    FullBucket(Prune(history, now), BucketsFor(verb, level), limits)
  }

  // ---------------------------------------------------------------- the funnel

  datatype Agent = Agent(process: nat, thread: nat)

  /** `ts` is when the action was admitted, which is the time its records carry; the device call
      that follows may take any time. */
  datatype Action = Action(verb: string, level: Risk, ts: Time) {
    function Buckets(): seq<string> { BucketsFor(verb, level) }
  }

  datatype Phase =
    | Idle
    | ThreadLocked                                     // holds its process's thread lock
    | BothLocked                                       // holds the file lock as well
    | Admitted(action: Action, history: seq<Entry>)    // passed the check; the history it loaded and pruned

  /** `hasFlock`: the platform supports file locks; without them the file lock is always granted. */
  datatype Config = Config(limits: map<string, int>, hasFlock: bool)

  datatype State = State(
    threadLock: map<nat, Agent>, fileLock: Option<Agent>, phase: map<Agent, Phase>,
    disk: seq<Entry>, log: seq<Action>, clock: Time)

  const EMPTY := State(map[], None, map[], [], [], 0.0)

  function PhaseOf(s: State, a: Agent): Phase {
    if a in s.phase then s.phase[a] else Idle
  }

  /** One atomic step of a thread.  `Leave` covers every way out of the locked region: a refusal,
      an error of the device, a dry run, and the normal end. */
  datatype Step =
    | TakeThreadLock(who: Agent)
    | TakeFileLock(who: Agent)
    | Admit(who: Agent, verb: string, level: Risk, now: Time)
    | Save(who: Agent)
    | Leave(who: Agent)
    | GiveUpThreadLock(who: Agent)

  function Entries(a: Action): seq<Entry> {
    EntriesFor(a.Buckets(), a.ts)
  }

  function EntriesFor(buckets: seq<string>, ts: Time): seq<Entry> {
    if buckets == [] then [] else [Entry(buckets[0], ts)] + EntriesFor(buckets[1..], ts)
  }

  /** Each thread follows the funnel's order, the clock does not run backwards, and where there are
      no file locks only one process runs. */
  predicate Legal(c: Config, s: State, step: Step) {
    && (c.hasFlock || step.who.process == 0)
    && match step
       case TakeThreadLock(a) => PhaseOf(s, a).Idle?
       case TakeFileLock(a) => PhaseOf(s, a).ThreadLocked?
       case Admit(a, _, _, now) => PhaseOf(s, a).BothLocked? && s.clock <= now
       case Save(a) => PhaseOf(s, a).Admitted?
       case Leave(a) => PhaseOf(s, a).BothLocked? || PhaseOf(s, a).Admitted?
       case GiveUpThreadLock(a) => PhaseOf(s, a).ThreadLocked?
  }

  function Next(c: Config, s: State, step: Step): State
    requires Legal(c, s, step)
  {
    var a := step.who;
    match step
    case TakeThreadLock(_) =>
      if a.process in s.threadLock then s      // busy: not blocking
      else s.(threadLock := s.threadLock[a.process := a], phase := s.phase[a := ThreadLocked])
    case TakeFileLock(_) =>
      if c.hasFlock && s.fileLock.Some? then s      // busy; the thread lock is given up next
      else s.(fileLock := if c.hasFlock then Some(a) else None, phase := s.phase[a := BothLocked])
    case Admit(_, verb, level, now) =>
      var history := Prune(s.disk, now);
      var s' := s.(clock := now);
      if Check(history, verb, level, c.limits, now).Some? then s'
      else s'.(phase := s.phase[a := Admitted(Action(verb, level, now), history)])
    case Save(_) =>
      var p := s.phase[a];
      s.(disk := p.history + Entries(p.action), log := s.log + [p.action], phase := s.phase[a := BothLocked])
    case Leave(_) => s.(fileLock := None, phase := s.phase[a := ThreadLocked])
    case GiveUpThreadLock(_) => s.(threadLock := s.threadLock - {a.process}, phase := s.phase[a := Idle])
  }

  // ---------------------------------------------------------------- counting

  /** The action counts towards the limit of this name. */
  predicate InBucket(a: Action, b: string) {
    b == "global" || b == a.verb || (b == "high_risk" && (a.level.High? || a.level.Critical?))
  }

  lemma BucketsAre(a: Action, b: string)
    ensures InBucket(a, b) <==> b in a.Buckets()
  {
    assert a.Buckets()[0] == "global" && a.Buckets()[1] == a.verb;
    if a.level.High? || a.level.Critical? {
      assert a.Buckets()[2] == "high_risk";
    }
  }

  /** Completed actions of bucket `b` admitted between two instants. */
  function Completed(log: seq<Action>, b: string, from: Time, to: Time): nat {
    if log == [] then 0
    else
      var last := log[|log| - 1];
      Completed(log[..|log| - 1], b, from, to) + if InBucket(last, b) && from <= last.ts <= to then 1 else 0
  }

  /** Completed actions admitted in the closed window that ends at `now`. */
  function Recent(log: seq<Action>, b: string, now: Time): nat {
    Completed(log, b, now - WINDOW, now)
  }

  function Cap(c: Config, b: string): nat
    requires b in c.limits
  {
    if c.limits[b] < 0 then 0 else c.limits[b]
  }

  lemma CountAppend(h: seq<Entry>, e: Entry, b: string)
    ensures Count(h + [e], b) == Count(h, b) + if e.bucket == b then 1 else 0
  {
    assert (h + [e])[..|h|] == h;
  }

  predicate Distinct(buckets: seq<string>) {
    forall i, j | 0 <= i < j < |buckets| :: buckets[i] != buckets[j]
  }

  /** A verb whose own bucket is not one of the shared ones. */
  predicate Ordinary(verb: string) {
    verb != "global" && verb != "high_risk"
  }

  predicate AllOrdinary(log: seq<Action>) {
    forall i | 0 <= i < |log| :: Ordinary(log[i].verb)
  }

  lemma {:induction false} CountEntries(h: seq<Entry>, buckets: seq<string>, ts: Time, b: string)
    ensures Count(h + EntriesFor(buckets, ts), b) >= Count(h, b) + if b in buckets then 1 else 0
    ensures Distinct(buckets) ==> Count(h + EntriesFor(buckets, ts), b) == Count(h, b) + if b in buckets then 1 else 0
    decreases |buckets|
  {
    if buckets == [] {
      assert h + EntriesFor(buckets, ts) == h;
    } else {
      var e := Entry(buckets[0], ts);
      var rest := EntriesFor(buckets[1..], ts);
      assert h + ([e] + rest) == (h + [e]) + rest;
      CountAppend(h, e, b);
      CountEntries(h + [e], buckets[1..], ts, b);
      assert b in buckets <==> b == buckets[0] || b in buckets[1..];
    }
  }

  lemma {:induction false} PruneAppend(h: seq<Entry>, more: seq<Entry>, now: Time)
    ensures Prune(h + more, now) == Prune(h, now) + Prune(more, now)
    decreases |more|
  {
    if more == [] {
      assert h + more == h;
    } else {
      var n := |more| - 1;
      assert (h + more)[..|h| + n] == h + more[..n];
      PruneAppend(h, more[..n], now);
    }
  }

  lemma {:induction false} PruneTwice(h: seq<Entry>, earlier: Time, now: Time)
    requires earlier <= now
    ensures Prune(Prune(h, earlier), now) == Prune(h, now)
  {
    if h != [] {
      var n := |h| - 1;
      PruneTwice(h[..n], earlier, now);
      var kept := if earlier - h[n].ts <= WINDOW then [h[n]] else [];
      PruneAppend(Prune(h[..n], earlier), kept, now);
      if kept != [] {
        assert kept[..0] == [];
        assert Prune(kept, now) == if now - h[n].ts <= WINDOW then [h[n]] else [];
      }
    }
  }

  lemma {:induction false} PruneEntries(buckets: seq<string>, ts: Time, now: Time)
    requires now - ts <= WINDOW
    ensures Prune(EntriesFor(buckets, ts), now) == EntriesFor(buckets, ts)
  {
    if buckets != [] {
      var e := Entry(buckets[0], ts);
      PruneEntries(buckets[1..], ts, now);
      PruneAppend([e], EntriesFor(buckets[1..], ts), now);
      assert Prune([e], now) == [e] by {
        assert [e][..0] == [];
      }
    }
  }

  lemma {:induction false} PruneOldEntries(buckets: seq<string>, ts: Time, now: Time)
    requires now - ts > WINDOW
    ensures Prune(EntriesFor(buckets, ts), now) == []
  {
    if buckets != [] {
      var e := Entry(buckets[0], ts);
      PruneOldEntries(buckets[1..], ts, now);
      PruneAppend([e], EntriesFor(buckets[1..], ts), now);
      assert Prune([e], now) == [] by {
        assert [e][..0] == [];
      }
    }
  }

  lemma {:induction false} CompletedWithin(log: seq<Action>, b: string, from: Time, to: Time, from': Time, to': Time)
    requires from' <= from && to <= to'
    ensures Completed(log, b, from, to) <= Completed(log, b, from', to')
  {
    if log != [] {
      CompletedWithin(log[..|log| - 1], b, from, to, from', to');
    }
  }

  lemma {:induction false} FullBucketMeaning(recent: seq<Entry>, buckets: seq<string>, limits: map<string, int>)
    ensures FullBucket(recent, buckets, limits).None? <==>
            forall b | b in buckets && b in limits :: Count(recent, b) < limits[b]
    ensures var full := FullBucket(recent, buckets, limits);
            full.Some? ==>
              full.value in buckets && full.value in limits && Count(recent, full.value) >= limits[full.value]
  {
    if buckets != [] {
      FullBucketMeaning(recent, buckets[1..], limits);
    }
  }

  // ---------------------------------------------------------------- what every step keeps

  predicate Critical(s: State, a: Agent) {
    PhaseOf(s, a).BothLocked? || PhaseOf(s, a).Admitted?
  }

  ghost predicate LockInv(c: Config, s: State) {
    && (forall a :: !PhaseOf(s, a).Idle? ==> a.process in s.threadLock && s.threadLock[a.process] == a)
    && (forall a :: !PhaseOf(s, a).Idle? ==> c.hasFlock || a.process == 0)
    && (c.hasFlock ==> forall a :: Critical(s, a) ==> s.fileLock == Some(a))
    && HeldInv(c, s)
  }

  /** No lock is left behind: whoever is entered as its holder is where it holds it. */
  ghost predicate HeldInv(c: Config, s: State) {
    && (forall p :: p in s.threadLock ==> s.threadLock[p].process == p && !PhaseOf(s, s.threadLock[p]).Idle?)
    && (s.fileLock.Some? ==> c.hasFlock && Critical(s, s.fileLock.value))
  }

  predicate NoneLater(log: seq<Action>, moment: Time) {
    forall i | 0 <= i < |log| :: log[i].ts <= moment
  }

  /** The saved history never undercounts: whatever is pruned at a save is too old to matter. */
  ghost predicate DiskInv(disk: seq<Entry>, log: seq<Action>, clock: Time) {
    forall b, now :: now >= clock ==>
      && Recent(log, b, now) <= Count(Prune(disk, now), b)
      && (AllOrdinary(log) ==> Recent(log, b, now) == Count(Prune(disk, now), b))
  }

  ghost predicate WindowInv(c: Config, log: seq<Action>) {
    forall b, now | b in c.limits :: Recent(log, b, now) <= Cap(c, b)
  }

  ghost predicate Inv(c: Config, s: State) {
    && LockInv(c, s)
    && DiskInv(s.disk, s.log, s.clock)
    && WindowInv(c, s.log)
    && NoneLater(s.log, s.clock)
    && (forall a :: PhaseOf(s, a).Admitted? ==> AdmissionHolds(c, s, PhaseOf(s, a)))
  }

  /** What an admitted thread may rely on until it saves: nobody else has touched the history. */
  ghost predicate AdmissionHolds(c: Config, s: State, p: Phase)
    requires p.Admitted?
  {
    && p.action.ts == s.clock
    && p.history == Prune(s.disk, p.action.ts)
    && forall b | b in p.action.Buckets() && b in c.limits :: Count(p.history, b) < c.limits[b]
  }

  /** What a save adds to the count of a bucket, seen from `now` on. */
  lemma SaveCounts(disk: seq<Entry>, a: Action, b: string, now: Time)
    requires a.ts <= now
    ensures var kept, saved := Count(Prune(disk, now), b), Count(Prune(Prune(disk, a.ts) + Entries(a), now), b);
            var one := if b in a.Buckets() && now - a.ts <= WINDOW then 1 else 0;
            saved >= kept + one && (Distinct(a.Buckets()) ==> saved == kept + one)
  {
    PruneAppend(Prune(disk, a.ts), Entries(a), now);
    PruneTwice(disk, a.ts, now);
    if now - a.ts <= WINDOW {
      PruneEntries(a.Buckets(), a.ts, now);
      CountEntries(Prune(disk, now), a.Buckets(), a.ts, b);
    } else {
      PruneOldEntries(a.Buckets(), a.ts, now);
      assert Prune(disk, now) + [] == Prune(disk, now);
    }
  }

  lemma RecentAfter(log: seq<Action>, a: Action, b: string, now: Time)
    requires a.ts <= now
    ensures Recent(log + [a], b, now) == Recent(log, b, now) + if b in a.Buckets() && now - a.ts <= WINDOW then 1 else 0
  {
    BucketsAre(a, b);
    assert (log + [a])[..|log|] == log;
  }

  lemma SaveKeepsDisk(disk: seq<Entry>, log: seq<Action>, a: Action)
    requires DiskInv(disk, log, a.ts)
    ensures DiskInv(Prune(disk, a.ts) + Entries(a), log + [a], a.ts)
  {
    var disk', log' := Prune(disk, a.ts) + Entries(a), log + [a];
    forall b, now | now >= a.ts
      ensures Recent(log', b, now) <= Count(Prune(disk', now), b)
      ensures AllOrdinary(log') ==> Recent(log', b, now) == Count(Prune(disk', now), b)
    {
      assert Recent(log, b, now) <= Count(Prune(disk, now), b);
      RecentAfter(log, a, b, now);
      SaveCounts(disk, a, b, now);
      if AllOrdinary(log') {
        assert log'[|log|] == a && forall i | 0 <= i < |log| :: log'[i] == log[i];
      }
    }
  }

  /** After the latest admission a window only loses actions. */
  lemma RecentShrinks(log: seq<Action>, b: string, ts: Time, now: Time)
    requires NoneLater(log, ts) && ts <= now
    ensures Recent(log, b, now) <= Recent(log, b, ts)
  {
    CompletedUpTo(log, b, now - WINDOW, now, ts);
    CompletedWithin(log, b, now - WINDOW, ts, ts - WINDOW, ts);
  }

  lemma SaveKeepsWindow(c: Config, disk: seq<Entry>, log: seq<Action>, a: Action)
    requires DiskInv(disk, log, a.ts) && WindowInv(c, log) && NoneLater(log, a.ts)
    requires forall b | b in a.Buckets() && b in c.limits :: Count(Prune(disk, a.ts), b) < c.limits[b]
    ensures WindowInv(c, log + [a])
  {
    var log' := log + [a];
    assert log'[..|log|] == log;
    forall b, now | b in c.limits
      ensures Recent(log', b, now) <= Cap(c, b)
    {
      assert Recent(log, b, now) <= Cap(c, b);
      BucketsAre(a, b);
      if b in a.Buckets() && now - WINDOW <= a.ts <= now {
        RecentShrinks(log, b, a.ts, now);
        assert Recent(log, b, a.ts) <= Count(Prune(disk, a.ts), b);
      }
    }
  }

  /** Nothing in the log is later than `last`. */
  lemma {:induction false} CompletedUpTo(log: seq<Action>, b: string, from: Time, to: Time, last: Time)
    requires NoneLater(log, last)
    requires last <= to
    ensures Completed(log, b, from, to) == Completed(log, b, from, last)
  {
    if log != [] {
      CompletedUpTo(log[..|log| - 1], b, from, to, last);
    }
  }

  lemma AdmitKeeps(c: Config, s: State, step: Step)
    requires Inv(c, s) && Legal(c, s, step) && step.Admit?
    ensures Inv(c, Next(c, s, step))
  {
    var a, now := step.who, step.now;
    var s' := Next(c, s, step);
    var history := Prune(s.disk, now);
    PruneTwice(s.disk, now, now);
    FullBucketMeaning(history, BucketsFor(step.verb, step.level), c.limits);
    PhasesMoveOnly(s, s', a);
  }

  /** A step that moves one thread inside its critical section leaves the locks as they should be. */
  lemma PhasesMoveOnly(s: State, s': State, a: Agent)
    requires Critical(s, a) && Critical(s', a)
    requires forall b | b != a :: PhaseOf(s', b) == PhaseOf(s, b)
    ensures forall b :: (PhaseOf(s', b).Idle? <==> PhaseOf(s, b).Idle?) && (Critical(s', b) <==> Critical(s, b))
  {
  }

  lemma SaveKeeps(c: Config, s: State, step: Step)
    requires Inv(c, s) && Legal(c, s, step) && step.Save?
    ensures Inv(c, Next(c, s, step))
  {
    var a := step.who;
    var p := s.phase[a];
    assert AdmissionHolds(c, s, PhaseOf(s, a));
    SaveKeepsDisk(s.disk, s.log, p.action);
    SaveKeepsWindow(c, s.disk, s.log, p.action);
    PhasesMoveOnly(s, Next(c, s, step), a);
  }

  lemma LockStepKeepsHeld(c: Config, s: State, step: Step)
    requires LockInv(c, s) && Legal(c, s, step) && !step.Admit? && !step.Save?
    ensures HeldInv(c, Next(c, s, step))
  {
    var s' := Next(c, s, step);
    assert forall b :: b != step.who ==> PhaseOf(s', b) == PhaseOf(s, b);
    forall p | p in s'.threadLock
      ensures s'.threadLock[p].process == p && !PhaseOf(s', s'.threadLock[p]).Idle?
    {
      assert p in s.threadLock ==> s.threadLock[p].process == p && !PhaseOf(s, s.threadLock[p]).Idle?;
    }
    if s'.fileLock.Some? && s'.fileLock != s.fileLock {
      assert s'.fileLock.value == step.who;
    }
  }

  lemma LockStepKeepsLocks(c: Config, s: State, step: Step)
    requires LockInv(c, s) && Legal(c, s, step) && !step.Admit? && !step.Save?
    ensures LockInv(c, Next(c, s, step))
  {
    var s' := Next(c, s, step);
    LockStepKeepsHeld(c, s, step);
    forall b
      ensures b != step.who ==> PhaseOf(s', b) == PhaseOf(s, b)
      ensures !PhaseOf(s', b).Idle? ==> b.process in s'.threadLock && s'.threadLock[b.process] == b
      ensures !PhaseOf(s', b).Idle? ==> c.hasFlock || b.process == 0
      ensures c.hasFlock && Critical(s', b) ==> s'.fileLock == Some(b)
    {
      if b != step.who {
        assert PhaseOf(s', b) == PhaseOf(s, b);
        assert Critical(s', b) <==> Critical(s, b);
      }
      assert !PhaseOf(s, step.who).Idle? ==> s.threadLock[step.who.process] == step.who;
      assert c.hasFlock && Critical(s, step.who) ==> s.fileLock == Some(step.who);
    }
  }

  lemma LockStepKeeps(c: Config, s: State, step: Step)
    requires Inv(c, s) && Legal(c, s, step) && !step.Admit? && !step.Save?
    ensures Inv(c, Next(c, s, step))
  {
    var s' := Next(c, s, step);
    LockStepKeepsLocks(c, s, step);
    forall b | PhaseOf(s', b).Admitted?
      ensures AdmissionHolds(c, s', PhaseOf(s', b))
    {
      assert PhaseOf(s', b) == PhaseOf(s, b);
    }
  }

  lemma StepKeeps(c: Config, s: State, step: Step)
    requires Inv(c, s) && Legal(c, s, step)
    ensures Inv(c, Next(c, s, step))
  {
    if step.Admit? {
      AdmitKeeps(c, s, step);
    } else if step.Save? {
      SaveKeeps(c, s, step);
    } else {
      LockStepKeeps(c, s, step);
    }
  }

  predicate LegalRun(c: Config, s: State, steps: seq<Step>)
    decreases |steps|
  {
    steps == [] || (Legal(c, s, steps[0]) && LegalRun(c, Next(c, s, steps[0]), steps[1..]))
  }

  function RunSteps(c: Config, s: State, steps: seq<Step>): State
    requires LegalRun(c, s, steps)
    decreases |steps|
  {
    if steps == [] then s else RunSteps(c, Next(c, s, steps[0]), steps[1..])
  }

  lemma {:induction false} RunKeeps(c: Config, s: State, steps: seq<Step>)
    requires Inv(c, s) && LegalRun(c, s, steps)
    ensures Inv(c, RunSteps(c, s, steps))
    decreases |steps|
  {
    if steps != [] {
      StepKeeps(c, s, steps[0]);
      RunKeeps(c, Next(c, s, steps[0]), steps[1..]);
    }
  }

  /** However the threads of all processes interleave, at most one thread on the machine is between
      taking the file lock and leaving. */
  lemma MutualExclusion(c: Config, steps: seq<Step>, a: Agent, b: Agent)
    requires LegalRun(c, EMPTY, steps)
    requires Critical(RunSteps(c, EMPTY, steps), a) && Critical(RunSteps(c, EMPTY, steps), b)
    ensures a == b
  {
    assert Inv(c, EMPTY);
    RunKeeps(c, EMPTY, steps);
  }

  /** However the threads of all processes interleave, a thread that asks for its process's lock gets
      it exactly if no other thread of the process is past idling, and one that then asks for the file
      lock gets it exactly if no thread on the machine is between taking it and leaving. */
  lemma LocksGrantedExactly(c: Config, steps: seq<Step>, a: Agent)
    requires LegalRun(c, EMPTY, steps)
    ensures var s := RunSteps(c, EMPTY, steps);
            && (Legal(c, s, TakeThreadLock(a)) ==>
                  (PhaseOf(Next(c, s, TakeThreadLock(a)), a).ThreadLocked?
                   <==> forall b: Agent :: b.process == a.process ==> PhaseOf(s, b).Idle?))
            && (Legal(c, s, TakeFileLock(a)) ==>
                  (PhaseOf(Next(c, s, TakeFileLock(a)), a).BothLocked? <==> forall b :: !Critical(s, b)))
  {
    assert Inv(c, EMPTY);
    RunKeeps(c, EMPTY, steps);
    var s := RunSteps(c, EMPTY, steps);
    if Legal(c, s, TakeThreadLock(a)) && a.process in s.threadLock {
      assert s.threadLock[a.process].process == a.process && !PhaseOf(s, s.threadLock[a.process]).Idle?;
    }
    if Legal(c, s, TakeFileLock(a)) && s.fileLock.Some? {
      assert Critical(s, s.fileLock.value);
    }
    assert forall b: Agent :: Critical(s, b) ==> b.process in s.threadLock && s.threadLock[b.process] == b;
    assert !c.hasFlock ==> forall b: Agent :: Critical(s, b) ==> b.process == 0;
  }

  lemma BucketBound(c: Config, steps: seq<Step>, b: string, t: Time)
    requires LegalRun(c, EMPTY, steps) && b in c.limits
    ensures Completed(RunSteps(c, EMPTY, steps).log, b, t, t + WINDOW) <= Cap(c, b)
  {
    assert Inv(c, EMPTY);
    RunKeeps(c, EMPTY, steps);
    var s := RunSteps(c, EMPTY, steps);
    assert Recent(s.log, b, t + WINDOW) <= Cap(c, b);
  }

  /** The actions that a limit is about. */
  datatype Group = AllActions | HighRiskActions | OfVerb(verb: string)

  predicate Belongs(a: Action, g: Group) {
    match g
    case AllActions => true
    case HighRiskActions => a.level.High? || a.level.Critical?
    case OfVerb(v) => a.verb == v
  }

  /** The name its limit goes by. */
  function LimitName(g: Group): string {
    match g
    case AllActions => "global"
    case HighRiskActions => "high_risk"
    case OfVerb(v) => v
  }

  /** The actions of the group, admitted between two instants. */
  function Tally(log: seq<Action>, g: Group, from: Time, to: Time): nat {
    if log == [] then 0
    else
      var last := log[|log| - 1];
      Tally(log[..|log| - 1], g, from, to) + if Belongs(last, g) && from <= last.ts <= to then 1 else 0
  }

  lemma BucketsOfAction(a: Action, g: Group)
    ensures Belongs(a, g) ==> InBucket(a, LimitName(g))
    ensures Ordinary(a.verb) && (g.OfVerb? ==> Ordinary(g.verb)) ==> (Belongs(a, g) <==> InBucket(a, LimitName(g)))
  {
    assert |"global"| != |"high_risk"|;
  }

  lemma {:induction false} TallyIsCompleted(log: seq<Action>, g: Group, from: Time, to: Time)
    ensures Tally(log, g, from, to) <= Completed(log, LimitName(g), from, to)
    ensures AllOrdinary(log) && (g.OfVerb? ==> Ordinary(g.verb)) ==>
              Tally(log, g, from, to) == Completed(log, LimitName(g), from, to)
  {
    if log != [] {
      TallyIsCompleted(log[..|log| - 1], g, from, to);
      BucketsOfAction(log[|log| - 1], g);
    }
  }

  /** However the threads of all processes interleave, in any closed 60 seconds at most as many actions
      were admitted and completed as the limits say: of all actions, of those of high or critical risk,
      and of those of each verb. */
  lemma WindowBound(c: Config, steps: seq<Step>, g: Group, t: Time)
    requires LegalRun(c, EMPTY, steps) && LimitName(g) in c.limits
    ensures var limit := c.limits[LimitName(g)];
            Tally(RunSteps(c, EMPTY, steps).log, g, t, t + 60.0) <= if limit < 0 then 0 else limit
  {
    BucketBound(c, steps, LimitName(g), t);
    TallyIsCompleted(RunSteps(c, EMPTY, steps).log, g, t, t + 60.0);
  }

  /** The limit is used up by the actions of the 60 seconds up to `now`. */
  predicate UsedUp(c: Config, log: seq<Action>, g: Group, now: Time) {
    LimitName(g) in c.limits && Tally(log, g, now - 60.0, now) >= c.limits[LimitName(g)]
  }

  /** With ordinary verbs a check made at or after the latest admission refuses exactly if the limit on
      all actions, on the verb, or (for an action of high or critical risk) on such actions is used up,
      and names the first of them that is. */
  lemma RefusesExactly(c: Config, steps: seq<Step>, verb: string, level: Risk, now: Time)
    requires LegalRun(c, EMPTY, steps) && RunSteps(c, EMPTY, steps).clock <= now
    requires AllOrdinary(RunSteps(c, EMPTY, steps).log) && Ordinary(verb)
    ensures var s := RunSteps(c, EMPTY, steps);
            Check(s.disk, verb, level, c.limits, now)
            == if UsedUp(c, s.log, AllActions, now) then Some("global")
               else if UsedUp(c, s.log, OfVerb(verb), now) then Some(verb)
               else if (level.High? || level.Critical?) && UsedUp(c, s.log, HighRiskActions, now) then Some("high_risk")
               else None
  {
    assert Inv(c, EMPTY);
    RunKeeps(c, EMPTY, steps);
    var s := RunSteps(c, EMPTY, steps);
    assert forall b :: Recent(s.log, b, now) == Count(Prune(s.disk, now), b);
    TallyIsCompleted(s.log, AllActions, now - 60.0, now);
    TallyIsCompleted(s.log, OfVerb(verb), now - 60.0, now);
    TallyIsCompleted(s.log, HighRiskActions, now - 60.0, now);
    FirstFull(Prune(s.disk, now), verb, level, c.limits);
  }

  lemma FirstFull(recent: seq<Entry>, verb: string, level: Risk, limits: map<string, int>)
    ensures FullBucket(recent, BucketsFor(verb, level), limits)
            == if "global" in limits && Count(recent, "global") >= limits["global"] then Some("global")
               else if verb in limits && Count(recent, verb) >= limits[verb] then Some(verb)
               else if (level.High? || level.Critical?)
                       && "high_risk" in limits && Count(recent, "high_risk") >= limits["high_risk"]
               then Some("high_risk") else None
  {
    var buckets := BucketsFor(verb, level);
    var rest := if level.High? || level.Critical? then ["high_risk"] else [];
    assert buckets[0] == "global" && buckets[1..][0] == verb && buckets[1..][1..] == rest;
    assert FullBucket(recent, [], limits).None?;
    assert rest != [] ==> rest[1..] == [] && rest[0] == "high_risk";
    assert FullBucket(recent, rest, limits)
        == if rest != [] && "high_risk" in limits && Count(recent, "high_risk") >= limits["high_risk"]
           then Some("high_risk") else None;
  }

  /** So with ordinary verbs an action is admitted, as asked for and with the time it was asked at,
      exactly if none of its limits is used up; and what a save completes is the action admitted. */
  lemma AdmitsExactly(c: Config, steps: seq<Step>, step: Step)
    requires LegalRun(c, EMPTY, steps) && Legal(c, RunSteps(c, EMPTY, steps), step)
    requires AllOrdinary(RunSteps(c, EMPTY, steps).log)
    ensures var s := RunSteps(c, EMPTY, steps);
            var s' := Next(c, s, step);
            && (step.Admit? && Ordinary(step.verb) ==>
                  && (PhaseOf(s', step.who).Admitted? <==>
                        && !UsedUp(c, s.log, AllActions, step.now) && !UsedUp(c, s.log, OfVerb(step.verb), step.now)
                        && !((step.level.High? || step.level.Critical?) && UsedUp(c, s.log, HighRiskActions, step.now)))
                  && (PhaseOf(s', step.who).Admitted? ==>
                        PhaseOf(s', step.who).action == Action(step.verb, step.level, step.now)))
            && s'.log == s.log + if step.Save? then [PhaseOf(s, step.who).action] else []
  {
    var s := RunSteps(c, EMPTY, steps);
    if step.Admit? && Ordinary(step.verb) {
      PruneTwice(s.disk, step.now, step.now);
      RefusesExactly(c, steps, step.verb, step.level, step.now);
      var full := Check(s.disk, step.verb, step.level, c.limits, step.now);
      assert full == Check(Prune(s.disk, step.now), step.verb, step.level, c.limits, step.now);
      assert PhaseOf(s, step.who).BothLocked?;
      assert PhaseOf(Next(c, s, step), step.who).Admitted? <==> full.None?;
    }
    assert s.log + [] == s.log;
  }

  /** When every completed verb is ordinary the limiter is exact: a check made at or after the
      latest one lets an action through precisely when each limited bucket of it has fewer than
      its limit of completed actions admitted in the closed 60 seconds up to the check. */
  lemma CheckIsExact(c: Config, steps: seq<Step>, verb: string, level: Risk, now: Time)
    requires LegalRun(c, EMPTY, steps) && RunSteps(c, EMPTY, steps).clock <= now
    requires AllOrdinary(RunSteps(c, EMPTY, steps).log)
    ensures var s := RunSteps(c, EMPTY, steps);
            Check(s.disk, verb, level, c.limits, now).None? <==>
            forall b | b in c.limits && InBucket(Action(verb, level, now), b) ::
              Completed(s.log, b, now - 60.0, now) < c.limits[b]
  {
    assert Inv(c, EMPTY);
    RunKeeps(c, EMPTY, steps);
    var s := RunSteps(c, EMPTY, steps);
    FullBucketMeaning(Prune(s.disk, now), BucketsFor(verb, level), c.limits);
    forall b
      ensures InBucket(Action(verb, level, now), b) <==> b in BucketsFor(verb, level)
      ensures Completed(s.log, b, now - 60.0, now) == Count(Prune(s.disk, now), b)
    {
      BucketsAre(Action(verb, level, now), b);
      assert Recent(s.log, b, now) == Count(Prune(s.disk, now), b);
    }
  }

  lemma OneIsRecent(a: Action, b: string, now: Time)
    requires b in a.Buckets() && a.ts <= now <= a.ts + WINDOW
    ensures Recent([a], b, now) == 1
  {
    var log := [a];
    BucketsAre(a, b);
    assert log[..|log| - 1] == [] && log[|log| - 1] == a;
    assert Completed([], b, now - WINDOW, now) == 0;
  }

  lemma TwoEntriesCount(first: string, rest: seq<string>, ts: Time)
    requires first !in rest
    ensures Count(EntriesFor([first, first] + rest, ts), first) == 2
  {
    var e := Entry(first, ts);
    var buckets := [first, first] + rest;
    assert buckets[1..] == [first] + rest && buckets[1..][1..] == rest;
    assert EntriesFor(buckets, ts) == [e, e] + EntriesFor(rest, ts);
    CountAppend([], e, first);
    CountAppend([e], e, first);
    assert [] + [e] == [e] && [e] + [e] == [e, e];
    NoEntriesCount([e, e], rest, ts, first);
  }

  lemma {:induction false} NoEntriesCount(h: seq<Entry>, buckets: seq<string>, ts: Time, b: string)
    requires b !in buckets
    ensures Count(h + EntriesFor(buckets, ts), b) == Count(h, b)
    decreases |buckets|
  {
    if buckets == [] {
      assert h + EntriesFor(buckets, ts) == h;
    } else {
      var e := Entry(buckets[0], ts);
      var rest := EntriesFor(buckets[1..], ts);
      assert h + ([e] + rest) == (h + [e]) + rest;
      CountAppend(h, e, b);
      NoEntriesCount(h + [e], buckets[1..], ts, b);
    }
  }

  /** An action whose verb is named like a shared bucket is entered in that bucket twice. */
  lemma SharedNamesCountTwice(level: Risk, ts: Time, now: Time)
    requires ts <= now <= ts + WINDOW
    ensures var a := Action("global", level, ts);
            Recent([a], "global", now) == 1 && Count(Prune(Entries(a), now), "global") == 2
  {
    var a := Action("global", level, ts);
    var rest := if level.High? || level.Critical? then ["high_risk"] else [];
    assert a.Buckets() == ["global", "global"] + rest;
    assert a.Buckets()[0] == "global";
    OneIsRecent(a, "global", now);
    PruneEntries(a.Buckets(), ts, now);
    assert "global" !in rest by {
      assert |"global"| != |"high_risk"|;
    }
    TwoEntriesCount("global", rest, ts);
  }

  // ---------------------------------------------------------------- the funnel's code

  /** The locks and the history file of all processes, and the local variables of each thread.  A
      thread calls the methods in the order of `Legal`; threads interleave between calls. */
  class Funnel {
    const c: Config
    var threadLock: map<nat, Agent>
    var fileLock: Option<Agent>
    var phase: map<Agent, Phase>
    var disk: seq<Entry>
    ghost var log: seq<Action>
    ghost var clock: Time

    ghost function View(): State
      reads this
    {
      State(threadLock, fileLock, phase, disk, log, clock)
    }

    constructor (c: Config)
      ensures this.c == c && View() == EMPTY
    {
      this.c := c;
      threadLock, fileLock, phase, disk := map[], None, map[], [];
      log, clock := [], 0.0;
    }

    method AcquireThreadLock(a: Agent) returns (busy: bool)
      requires Legal(c, View(), TakeThreadLock(a))
      modifies this
      ensures View() == Next(c, old(View()), TakeThreadLock(a))
      ensures busy <==> a.process in old(threadLock)
    {
      busy := a.process in threadLock;
      if !busy {
        threadLock, phase := threadLock[a.process := a], phase[a := ThreadLocked];
      }
    }

    /** A busy file lock makes the thread give its thread lock up again. */
    method AcquireFileLock(a: Agent) returns (busy: bool)
      requires Legal(c, View(), TakeFileLock(a))
      modifies this
      ensures busy ==> View() == Next(c, old(View()), GiveUpThreadLock(a))
      ensures !busy ==> View() == Next(c, old(View()), TakeFileLock(a))
      ensures busy <==> c.hasFlock && old(fileLock).Some?
    {
      busy := c.hasFlock && fileLock.Some?;
      if busy {
        threadLock, phase := threadLock - {a.process}, phase[a := Idle];
      } else {
        fileLock, phase := if c.hasFlock then Some(a) else None, phase[a := BothLocked];
      }
    }

    method CheckLimits(a: Agent, verb: string, level: Risk, now: Time) returns (full: Option<string>)
      requires Legal(c, View(), Admit(a, verb, level, now))
      modifies this
      ensures View() == Next(c, old(View()), Admit(a, verb, level, now))
      ensures full == Check(Prune(old(disk), now), verb, level, c.limits, now)
    {
      PruneTwice(disk, now, now);
      clock := now;
      var history := Prune(disk, now);
      var recent := Prune(history, now);
      var buckets := BucketsFor(verb, level);
      for k := 0 to |buckets|
        invariant FullBucket(recent, buckets[k..], c.limits) == FullBucket(recent, buckets, c.limits)
      {
        assert buckets[k..][1..] == buckets[k + 1..];
        var bucket := buckets[k];
        if bucket in c.limits {
          var count := Count(recent, bucket);
          if count >= c.limits[bucket] {
            return Some(bucket);
          }
        }
      }
      phase := phase[a := Admitted(Action(verb, level, now), history)];
      full := None;
    }

    method SaveHistory(a: Agent)
      requires Legal(c, View(), Save(a))
      modifies this
      ensures View() == Next(c, old(View()), Save(a))
    {
      var action, history := phase[a].action, phase[a].history;
      var buckets := action.Buckets();
      for k := 0 to |buckets|
        invariant history + EntriesFor(buckets[k..], action.ts) == phase[a].history + Entries(action)
      {
        var entry := Entry(buckets[k], action.ts);
        var rest := EntriesFor(buckets[k + 1..], action.ts);
        assert buckets[k..][1..] == buckets[k + 1..];
        assert history + ([entry] + rest) == (history + [entry]) + rest;
        history := history + [entry];
      }
      assert history + [] == history;
      disk := history;
      log, phase := log + [action], phase[a := BothLocked];
    }

    method ReleaseFileLock(a: Agent)
      requires Legal(c, View(), Leave(a))
      modifies this
      ensures View() == Next(c, old(View()), Leave(a))
    {
      fileLock, phase := None, phase[a := ThreadLocked];
    }

    method ReleaseThreadLock(a: Agent)
      requires Legal(c, View(), GiveUpThreadLock(a))
      modifies this
      ensures View() == Next(c, old(View()), GiveUpThreadLock(a))
    {
      threadLock, phase := threadLock - {a.process}, phase[a := Idle];
    }
  }
}
