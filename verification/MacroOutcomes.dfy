/** Which ways a document can end: an abstract interpreter over documents alone, proved to find
    exactly the endings that some world brings about. */
module MacroOutcomes {
  import opened Common
  import opened MacroSyntax
  import opened MacroSemantics
  import A = Autonomy

  // ---------------------------------------------------------------- what is kept of a record

  /** Has a `stop` been executed, and has a step begun after it? */
  datatype Halt = NoStop | AtStop | PastStop

  function NextHalt(h: Halt, e: Event): Halt {
    if e.Halted? && h.NoStop? then AtStop
    else if e.Began? && h.AtStop? then PastStop
    else h
  }

  function HaltIn(trace: seq<Event>): Halt {
    if trace == [] then NoStop else NextHalt(HaltIn(trace[..|trace| - 1]), trace[|trace| - 1])
  }

  /** Nothing has failed; the latest failure may be retried; or it may not. */
  datatype Health = Fine | Soft | Hard

  datatype Mode = Mode(health: Health, halt: Halt)

  /** A way to end: the signal, and what is kept of the record. */
  datatype Out = Out(sig: Signal, mode: Mode)

  const START := Mode(Fine, NoStop)

  function HealthOf(ok: bool, outcome: string): Health {
    if ok then Fine else if outcome in RETRYABLE then Soft else Hard
  }

  function ModeOf(s: State): Mode {
    Mode(HealthOf(s.ok, s.outcome), HaltIn(s.trace))
  }

  function OutOf(r: Result): Out {
    Out(r.sig, ModeOf(r.st))
  }

  function After(a: Mode, e: Event): Mode {
    a.(halt := NextHalt(a.halt, e))
  }

  function Begun(a: Mode): Mode {
    After(a, Began(0))
  }

  // ---------------------------------------------------------------- the abstract interpreter

  /** More items of a variable than this bring no new ending: there are nine modes. */
  const SAMPLES := 9

  /** The signals that neither `try` nor `retry` catches. */
  predicate Escapes(sig: Signal) {
    sig.Cancelled? || sig.Fault?
  }

  /** No verb of an unattended macro with `require_confirm` gets through the default gate. */
  predicate Shut(m: Macro) {
    m.unattended && m.requireConfirm
  }

  /** A gate refusal or a declined confirmation; otherwise what mapping the verb and calling
      `run_action` can come to. */
  predicate CanAct(m: Macro, step: Step, a: Mode, o: Out)
    requires step.kind.Verb?
  {
    || o == Out(Stopped, a.(health := Hard))
    || (!Shut(m) && IsActionEnding(step, a, o))
  }

  predicate IsActionEnding(step: Step, a: Mode, o: Out)
    requires step.kind.Verb?
  {
    match MappingFault(step)
    case Some(f) => o == Out(Signal.Fault(f), a)
    case None => IsReplyEnding(a, o)
  }

  predicate IsReplyEnding(a: Mode, o: Out) {
    || o == Out(Done, a) || o == Out(Signal.Fault(ActionRaised), a)
    || o == Out(Stopped, a.(health := Soft)) || o == Out(Stopped, a.(health := Hard))
  }

  predicate CanSteps(m: Macro, steps: seq<Step>, a: Mode, o: Out)
    decreases steps, 0, 0
  {
    if steps == [] then o == Out(Done, a)
    else
      || o == Out(Cancelled, a)
      || (!o.sig.Done? && CanStep(m, steps[0], Begun(a), o))
      || exists h: Health, t: Halt ::
           CanStep(m, steps[0], Begun(a), Out(Done, Mode(h, t))) && CanSteps(m, steps[1..], Mode(h, t), o)
  }

  predicate CanBlock(m: Macro, b: Block, needed: bool, a: Mode, o: Out)
    decreases b, 0, 0
  {
    match b
    case Absent => o == Out(if needed then Signal.Fault(MissingSubkey) else Done, a)
    case Block(steps) => CanSteps(m, steps, a, o)
  }

  predicate CanStep(m: Macro, step: Step, a: Mode, o: Out)
    decreases step, 2, 0
  {
    match step.kind
    case Stop => o == Out(Stopped, After(a, Halted))
    case SetVar => o == Out(if VarKey in step.keys then Done else Signal.Fault(MissingVar), a)
    case Wait | AuditNote | Race => o == Out(Done, a)
    case Unknown(_) => o == Out(Signal.Fault(UnsupportedStep), a)
    case Verb(_) => CanAct(m, step, a, o)
    case Confirm => o == Out(Done, a) || o == Out(Stopped, a.(health := Hard))
    case If =>
      if ConditionKey !in step.keys then o == Out(Signal.Fault(MissingSubkey), a)
      else CanBlock(m, step.thenSteps, true, a, o) || CanBlock(m, step.elseSteps, false, a, o)
    case Switch =>
      if OnKey !in step.keys then o == Out(Signal.Fault(MissingSubkey), a)
      else
        || CanBlock(m, step.defaultSteps, false, a, o)
        || exists i | 0 <= i < |step.cases| ::
             CaseIndex(step.cases, step.cases[i].key) == i && CanSteps(m, step.cases[i].body, a, o)
    case ForEach =>
      if InKey !in step.keys then o == Out(Signal.Fault(MissingSubkey), a)
      else if step.literalItems.Some? then CanCount(m, step, step.literalItems.value, a, o)
      else exists n | 0 <= n <= SAMPLES :: CanCount(m, step, n, a, o)
    case Loop => CanLoop(m, step.doSteps, step.whileGiven, MaxIterations(step), a, o)
    case Retry => CanRetry(m, step.doSteps, MaxAttempts(step), a, o)
    case Try =>
      || (Escapes(o.sig) && CanBlock(m, step.doSteps, true, a, o))
      || exists h: Health, t: Halt ::
           CanEnd(m, step.doSteps, a, Mode(h, t)) && CanBlock(m, step.finallySteps, false, Mode(h, t), o)
  }

  /** The list can end in mode `c`, normally or by `_Stop`. */
  predicate CanEnd(m: Macro, b: Block, a: Mode, c: Mode)
    decreases b, 0, 1
  {
    CanBlock(m, b, true, a, Out(Done, c)) || CanBlock(m, b, true, a, Out(Stopped, c))
  }

  /** A `for_each` that finds `n` items. */
  predicate CanCount(m: Macro, step: Step, n: nat, a: Mode, o: Out)
    decreases step, 1, 0
  {
    if n > 0 && AsKey !in step.keys then o == Out(Signal.Fault(MissingSubkey), a)
    else CanItems(m, step.doSteps, n, a, o)
  }

  predicate CanItems(m: Macro, b: Block, n: nat, a: Mode, o: Out)
    decreases b, 1, n
  {
    if n == 0 then o == Out(Done, a)
    else
      || (!o.sig.Done? && CanBlock(m, b, true, a, o))
      || exists h: Health, t: Halt ::
           CanBlock(m, b, true, a, Out(Done, Mode(h, t))) && CanItems(m, b, n - 1, Mode(h, t), o)
  }

  predicate CanLoop(m: Macro, b: Block, guarded: bool, n: int, a: Mode, o: Out)
    decreases b, 1, if n < 0 then 0 else n
  {
    if n <= 0 then o == Out(Done, a)
    else
      || (guarded && o == Out(Done, a))
      || (!o.sig.Done? && CanBlock(m, b, true, a, o))
      || exists h: Health, t: Halt ::
           CanBlock(m, b, true, a, Out(Done, Mode(h, t))) && CanLoop(m, b, guarded, n - 1, Mode(h, t), o)
  }

  predicate CanRetry(m: Macro, b: Block, n: int, a: Mode, o: Out)
    decreases b, 1, if n < 0 then 0 else n
  {
    if n <= 0 then o == Out(Done, a)
    else
      || (Escapes(o.sig) && CanBlock(m, b, true, a, o))
      || exists h: Health, t: Halt ::
           && CanEnd(m, b, a, Mode(h, t))
           && if h.Fine? then o == Out(Done, Mode(h, t))
              else if h.Hard? || n == 1 then o == Out(Stopped, Mode(h, t))
              else CanRetry(m, b, n - 1, Mode(a.health, t), o)
  }

  /** The ways a whole document can end. */
  predicate CanFinish(m: Macro, actions: seq<Step>, o: Out) {
    CanSteps(m, actions, START, o)
  }

  // ---------------------------------------------------------------- every ending is foreseen

  lemma LogMode(s: State, e: Event)
    ensures ModeOf(s.Log(e)) == After(ModeOf(s), e)
    ensures ModeOf(s.Ask()) == ModeOf(s)
  {
    assert s.Log(e).trace[..|s.trace|] == s.trace;
  }

  lemma FailMode(s: State, code: string)
    ensures ModeOf(s.Fail(code)) == ModeOf(s).(health := if code in RETRYABLE then Soft else Hard)
  {
    assert s.Fail(code).trace[..|s.trace|] == s.trace;
  }

  lemma RefusalIsHard()
    ensures "confirmation_required" !in RETRYABLE && "guarded_action" !in RETRYABLE
  {
    assert |"confirmation_required"| == 21;
    assert "guarded_action"[0] == 'g';
  }

  /** The default gate lets no action of a shut macro through. */
  lemma ShutGate(w: World, m: Macro, t: nat)
    requires UsesDefaultGate(w, m) && Shut(m)
    ensures !w.gate(t).Allow?
  {
    var risk := if w.classified(t).Some? then w.classified(t).value else Low;
    A.DecideExact(m.name, m.requireConfirm, risk, w.ledger(t), w.clock(t));
    assert w.gate(t) == DefaultGate(w, m, t);
  }

  lemma ActionForeseen(w: World, m: Macro, step: Step, s: State)
    requires UsesDefaultGate(w, m) && step.kind.Verb?
    ensures CanAct(m, step, ModeOf(s), OutOf(ExecAction(w, m, step, s)))
  {
    var asked := s.Ask();
    RefusalIsHard();
    FailMode(asked, "guarded_action");
    FailMode(asked, "confirmation_required");
    FailMode(asked.Ask(), "confirmation_required");
    if Shut(m) {
      ShutGate(w, m, s.tick);
    } else {
      PerformForeseen(w, step, s.tick, asked);
      PerformForeseen(w, step, s.tick, asked.Ask());
    }
  }

  lemma PerformForeseen(w: World, step: Step, gateTick: nat, s: State)
    requires step.kind.Verb?
    ensures IsActionEnding(step, ModeOf(s), OutOf(Perform(w, step, gateTick, s)))
  {
    if MappingFault(step).None? {
      ActModes(w, gateTick, s);
    }
  }

  /** How each reply of `run_action` ends an action. */
  lemma ActModes(w: World, gateTick: nat, s: State)
    ensures OutOf(Act(w, gateTick, s))
            == match w.device(s.tick)
               case OkReply => Out(Done, ModeOf(s))
               case ErrorReply(code) => Out(Stopped, ModeOf(s).(health := if code in RETRYABLE then Soft else Hard))
               case NoReply => Out(Signal.Fault(ActionRaised), ModeOf(s))
  {
    var called := s.Ask().Log(Acted(gateTick));
    var acted := called.(stepsRun := s.stepsRun + 1);
    LogMode(s.Ask(), Acted(gateTick));
    LogMode(s, Acted(gateTick));
    assert ModeOf(acted) == ModeOf(called) == ModeOf(s);
    if w.device(s.tick).ErrorReply? {
      FailMode(acted, w.device(s.tick).code);
    }
  }

  lemma {:induction false} StepsForeseen(w: World, m: Macro, steps: seq<Step>, s: State)
    requires UsesDefaultGate(w, m)
    ensures CanSteps(m, steps, ModeOf(s), OutOf(ExecSteps(w, m, steps, s)))
    decreases steps, 0, 0
  {
    if steps != [] && w.cancelled(s.tick) {
      LogMode(s.Ask(), Refused(s.tick));
    } else if steps != [] {
      var begun := s.Ask().Log(Began(s.tick));
      LogMode(s.Ask(), Began(s.tick));
      StepForeseen(w, m, steps[0], begun);
      var r := ExecStep(w, m, steps[0], begun);
      if r.sig.Done? {
        StepsForeseen(w, m, steps[1..], r.st);
        assert OutOf(r) == Out(Done, Mode(ModeOf(r.st).health, ModeOf(r.st).halt));
      }
    }
  }

  lemma {:induction false} BlockForeseen(w: World, m: Macro, b: Block, needed: bool, s: State)
    requires UsesDefaultGate(w, m)
    ensures CanBlock(m, b, needed, ModeOf(s), OutOf(ExecBlock(w, m, b, needed, s)))
    decreases b, 0, 0
  {
    if b.Block? {
      StepsForeseen(w, m, b.steps, s);
    }
  }

  lemma {:induction false} BranchForeseen(w: World, m: Macro, step: Step, s: State)
    requires UsesDefaultGate(w, m)
    requires (step.kind.If? && ConditionKey in step.keys) || (step.kind.Switch? && OnKey in step.keys)
    ensures CanStep(m, step, ModeOf(s), OutOf(ExecStep(w, m, step, s)))
    decreases step, 1, 0
  {
    var asked := s.Ask();
    assert ModeOf(asked) == ModeOf(s);
    if step.kind.If? {
      if w.holds(s.tick) {
        BlockForeseen(w, m, step.thenSteps, true, asked);
      } else {
        BlockForeseen(w, m, step.elseSteps, false, asked);
      }
    } else {
      var i := CaseIndex(step.cases, w.choice(s.tick));
      if i < |step.cases| {
        StepsForeseen(w, m, step.cases[i].body, asked);
      } else {
        BlockForeseen(w, m, step.defaultSteps, false, asked);
      }
    }
  }

  lemma {:induction false} TryForeseen(w: World, m: Macro, step: Step, s: State)
    requires UsesDefaultGate(w, m)
    requires step.kind.Try?
    ensures CanStep(m, step, ModeOf(s), OutOf(ExecStep(w, m, step, s)))
    decreases step, 1, 0
  {
    BlockForeseen(w, m, step.doSteps, true, s);
    var r := ExecBlock(w, m, step.doSteps, true, s);
    if !Escapes(r.sig) {
      BlockForeseen(w, m, step.finallySteps, false, r.st);
      var c := ModeOf(r.st);
      assert CanEnd(m, step.doSteps, ModeOf(s), Mode(c.health, c.halt));
    }
  }

  lemma {:induction false} ForEachForeseen(w: World, m: Macro, step: Step, s: State)
    requires UsesDefaultGate(w, m)
    requires step.kind.ForEach? && InKey in step.keys
    ensures CanStep(m, step, ModeOf(s), OutOf(ExecStep(w, m, step, s)))
    decreases step, 1, 1
  {
    var n := if step.literalItems.Some? then step.literalItems.value else w.itemCount(s.tick);
    var o := OutOf(ExecStep(w, m, step, s));
    assert ModeOf(s.Ask()) == ModeOf(s);
    if n == 0 || AsKey in step.keys {
      ItemsForeseen(w, m, step.doSteps, n, s.Ask());
      if step.literalItems.None? {
        var k := FewItemsSuffice(m, step.doSteps, n, ModeOf(s), o);
        assert CanCount(m, step, k, ModeOf(s), o);
      }
    } else {
      assert CanCount(m, step, n, ModeOf(s), o) && CanCount(m, step, 1, ModeOf(s), o);
    }
  }

  lemma {:induction false} StepForeseen(w: World, m: Macro, step: Step, s: State)
    requires UsesDefaultGate(w, m)
    ensures CanStep(m, step, ModeOf(s), OutOf(ExecStep(w, m, step, s)))
    decreases step, 2, 0
  {
    match step.kind {
      case Stop => LogMode(s, Halted);
      case Verb(_) => ActionForeseen(w, m, step, s);
      case Confirm =>
        RefusalIsHard();
        FailMode(s.Ask(), "confirmation_required");
      case If => if ConditionKey in step.keys { BranchForeseen(w, m, step, s); }
      case Switch => if OnKey in step.keys { BranchForeseen(w, m, step, s); }
      case ForEach => if InKey in step.keys { ForEachForeseen(w, m, step, s); }
      case Loop => LoopForeseen(w, m, step.doSteps, step.whileGiven, MaxIterations(step), s);
      case Retry => RetryForeseen(w, m, step.doSteps, MaxAttempts(step), s);
      case Try => TryForeseen(w, m, step, s);
      case _ =>
    }
  }

  lemma {:induction false} ItemsForeseen(w: World, m: Macro, b: Block, n: nat, s: State)
    requires UsesDefaultGate(w, m)
    ensures CanItems(m, b, n, ModeOf(s), OutOf(ExecItems(w, m, b, n, s)))
    decreases b, 1, n
  {
    if n > 0 {
      BlockForeseen(w, m, b, true, s);
      var r := ExecBlock(w, m, b, true, s);
      if r.sig.Done? {
        ItemsForeseen(w, m, b, n - 1, r.st);
        assert OutOf(r) == Out(Done, Mode(ModeOf(r.st).health, ModeOf(r.st).halt));
      }
    }
  }

  lemma {:induction false} LoopForeseen(w: World, m: Macro, b: Block, guarded: bool, n: int, s: State)
    requires UsesDefaultGate(w, m)
    ensures CanLoop(m, b, guarded, n, ModeOf(s), OutOf(ExecLoop(w, m, b, guarded, n, s)))
    decreases b, 1, if n < 0 then 0 else n
  {
    if n > 0 && (guarded ==> w.holds(s.tick)) {
      var s0 := if guarded then s.Ask() else s;
      assert ModeOf(s0) == ModeOf(s);
      BlockForeseen(w, m, b, true, s0);
      var r := ExecBlock(w, m, b, true, s0);
      if r.sig.Done? {
        LoopForeseen(w, m, b, guarded, n - 1, r.st);
        assert OutOf(r) == Out(Done, Mode(ModeOf(r.st).health, ModeOf(r.st).halt));
      }
    }
  }

  /** What a rolled-back attempt leaves: the health from before it, and the stops it met. */
  lemma RollBackMode(s: State, failed: State)
    ensures ModeOf(failed.(ok := s.ok, outcome := s.outcome).Log(RolledBack(|s.trace|)))
            == Mode(ModeOf(s).health, ModeOf(failed).halt)
  {
    LogMode(failed.(ok := s.ok, outcome := s.outcome), RolledBack(|s.trace|));
  }

  lemma EscapingAttempt(w: World, m: Macro, b: Block, n: int, s: State)
    requires n > 0 && Escapes(ExecBlock(w, m, b, true, s.Log(Attempt)).sig)
    ensures ExecRetry(w, m, b, n, s) == ExecBlock(w, m, b, true, s.Log(Attempt))
  {
  }

  lemma {:induction false} RetryForeseen(w: World, m: Macro, b: Block, n: int, s: State)
    requires UsesDefaultGate(w, m)
    ensures CanRetry(m, b, n, ModeOf(s), OutOf(ExecRetry(w, m, b, n, s)))
    decreases b, 1, if n < 0 then 0 else n, 1
  {
    if n > 0 {
      LogMode(s, Attempt);
      BlockForeseen(w, m, b, true, s.Log(Attempt));
      if Escapes(ExecBlock(w, m, b, true, s.Log(Attempt)).sig) {
        EscapingAttempt(w, m, b, n, s);
      } else {
        CaughtForeseen(w, m, b, n, s);
      }
    }
  }

  lemma {:induction false} CaughtForeseen(w: World, m: Macro, b: Block, n: int, s: State)
    requires UsesDefaultGate(w, m)
    requires n > 0 && !Escapes(ExecBlock(w, m, b, true, s.Log(Attempt)).sig)
    requires CanEnd(m, b, ModeOf(s), ModeOf(ExecBlock(w, m, b, true, s.Log(Attempt)).st))
    ensures CanRetry(m, b, n, ModeOf(s), OutOf(ExecRetry(w, m, b, n, s)))
    decreases b, 1, n, 0
  {
    var failed := ExecBlock(w, m, b, true, s.Log(Attempt)).st;
    if ModeOf(failed).health.Soft? && n != 1 {
      RollBackMode(s, failed);
      RetryForeseen(w, m, b, n - 1, failed.(ok := s.ok, outcome := s.outcome).Log(RolledBack(|s.trace|)));
    }
  }

  // ---------------------------------------------------------------- few items are enough

  /** Each mode leads to the next by one round of the body. */
  predicate Rounds(m: Macro, b: Block, path: seq<Mode>) {
    forall k | 0 <= k < |path| - 1 :: CanBlock(m, b, true, path[k], Out(Done, path[k + 1]))
  }

  /** The path leads from `a` to the ending `o`. */
  predicate Leads(m: Macro, b: Block, path: seq<Mode>, a: Mode, o: Out) {
    && path != [] && path[0] == a && Rounds(m, b, path)
    && if o.sig.Done? then o == Out(Done, path[|path| - 1]) else CanBlock(m, b, true, path[|path| - 1], o)
  }

  lemma {:induction false} PathOfItems(m: Macro, b: Block, n: nat, a: Mode, o: Out) returns (path: seq<Mode>)
    requires CanItems(m, b, n, a, o)
    ensures Leads(m, b, path, a, o)
    decreases n
  {
    if n == 0 || (!o.sig.Done? && CanBlock(m, b, true, a, o)) {
      return [a];
    }
    var h: Health, t: Halt :|
      CanBlock(m, b, true, a, Out(Done, Mode(h, t))) && CanItems(m, b, n - 1, Mode(h, t), o);
    var rest := PathOfItems(m, b, n - 1, Mode(h, t), o);
    path := [a] + rest;
    assert forall k | 1 <= k < |path| :: path[k] == rest[k - 1];
  }

  lemma {:induction false} ItemsOfPath(m: Macro, b: Block, path: seq<Mode>, a: Mode, o: Out)
    requires Leads(m, b, path, a, o)
    ensures CanItems(m, b, if o.sig.Done? then |path| - 1 else |path|, a, o)
    decreases |path|
  {
    if |path| > 1 {
      var c := path[1];
      assert CanBlock(m, b, true, path[0], Out(Done, path[1]));
      assert Rounds(m, b, path[1..]) by {
        forall k | 0 <= k < |path[1..]| - 1
          ensures CanBlock(m, b, true, path[1..][k], Out(Done, path[1..][k + 1]))
        {
          assert CanBlock(m, b, true, path[k + 1], Out(Done, path[k + 1 + 1]));
        }
      }
      ItemsOfPath(m, b, path[1..], c, o);
      assert c == Mode(c.health, c.halt);
    }
  }

  const MODES: set<Mode> := set h: Health, t: Halt :: Mode(h, t)

  lemma NineModes()
    ensures |MODES| <= SAMPLES && forall c: Mode :: c in MODES
  {
    var listed := {Mode(Fine, NoStop), Mode(Fine, AtStop), Mode(Fine, PastStop),
                   Mode(Soft, NoStop), Mode(Soft, AtStop), Mode(Soft, PastStop),
                   Mode(Hard, NoStop), Mode(Hard, AtStop), Mode(Hard, PastStop)};
    forall c: Mode
      ensures c in listed && c in MODES
    {
      match c.health { case Fine => case Soft => case Hard => }
      match c.halt { case NoStop => case AtStop => case PastStop => }
    }
    assert MODES == listed;
  }

  lemma {:induction false} SubsetIsSmaller<X>(a: set<X>, b: set<X>)
    requires a <= b
    ensures |a| <= |b|
  {
    if a != {} {
      var x :| x in a;
      SubsetIsSmaller(a - {x}, b - {x});
    }
  }

  predicate Distinct(xs: seq<Mode>) {
    forall i, j | 0 <= i < j < |xs| :: xs[i] != xs[j]
  }

  lemma {:induction false} DistinctCount(xs: seq<Mode>)
    requires Distinct(xs)
    ensures |set x | x in xs| == |xs|
  {
    if xs != [] {
      var front, last := xs[..|xs| - 1], xs[|xs| - 1];
      DistinctCount(front);
      assert (set x | x in xs) == (set x | x in front) + {last};
      assert last !in front;
    }
  }

  lemma DistinctIsShort(path: seq<Mode>)
    requires Distinct(path)
    ensures |path| <= SAMPLES
  {
    DistinctCount(path);
    NineModes();
    SubsetIsSmaller((set x | x in path), MODES);
  }

  lemma LongPathRepeats(path: seq<Mode>) returns (i: nat, j: nat)
    requires |path| > SAMPLES
    ensures i < j < |path| && path[i] == path[j]
  {
    if Distinct(path) {
      DistinctIsShort(path);
      assert false;
    }
    i, j :| 0 <= i < j < |path| && path[i] == path[j];
  }

  lemma {:induction false} ShortPath(m: Macro, b: Block, path: seq<Mode>, a: Mode, o: Out) returns (short: seq<Mode>)
    requires Leads(m, b, path, a, o)
    ensures Leads(m, b, short, a, o) && |short| <= SAMPLES
    decreases |path|
  {
    if |path| <= SAMPLES {
      return path;
    }
    var i, j := LongPathRepeats(path);
    var cut := path[..i] + path[j..];
    forall k | 0 <= k < |cut| - 1
      ensures CanBlock(m, b, true, cut[k], Out(Done, cut[k + 1]))
    {
      var p := if k < i then k else k + (j - i);
      assert cut[k] == path[p];
      assert cut[k + 1] == path[p + 1];
    }
    short := ShortPath(m, b, cut, a, o);
  }

  /** Whatever a body can do over many items it can do over nine or fewer. */
  lemma FewItemsSuffice(m: Macro, b: Block, n: nat, a: Mode, o: Out) returns (k: nat)
    requires CanItems(m, b, n, a, o)
    ensures k <= SAMPLES && CanItems(m, b, k, a, o) && (n == 0 ==> k == 0)
  {
    if n == 0 {
      return 0;
    }
    var path := PathOfItems(m, b, n, a, o);
    var short := ShortPath(m, b, path, a, o);
    ItemsOfPath(m, b, short, a, o);
    k := if o.sig.Done? then |short| - 1 else |short|;
  }
}
