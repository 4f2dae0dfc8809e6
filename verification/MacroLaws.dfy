/** What each construct of a macro document does, as laws between lists of steps: a list that begins
    with the construct ends like the lists it selects, followed by the rest. */
module MacroLaws {
  import opened Common
  import opened MacroSyntax
  import opened MacroSemantics
  import T = MacroTheorems
  import A = Autonomy

  // ---------------------------------------------------------------- lists

  /** The record once a step has begun, before it asks anything. */
  function Begin(s: State): State {
    State(s.tick + 1, s.ok, s.outcome, s.stepsRun, s.trace + [Began(s.tick)])
  }

  /** The same record after one question. */
  function Later(s: State): State {
    State(s.tick + 1, s.ok, s.outcome, s.stepsRun, s.trace)
  }

  /** The list under an optional key. */
  function Listed(b: Block): seq<Step> {
    if b.Block? then b.steps else []
  }

  lemma FirstThenRest(w: World, m: Macro, step: Step, rest: seq<Step>, s: State)
    requires !w.cancelled(s.tick)
    ensures var r := ExecStep(w, m, step, Begin(s));
            ExecSteps(w, m, [step] + rest, s) == if r.sig.Done? then ExecSteps(w, m, rest, r.st) else r
  {
    assert ([step] + rest)[1..] == rest;
    assert s.Ask().Log(Began(s.tick)) == Begin(s);
  }

  /** A step that does what a list does, in front of the rest. */
  lemma ListThenRest(w: World, m: Macro, step: Step, rest: seq<Step>, s: State, list: seq<Step>, s': State)
    requires !w.cancelled(s.tick) && ExecStep(w, m, step, Begin(s)) == ExecSteps(w, m, list, s')
    ensures ExecSteps(w, m, [step] + rest, s) == ExecSteps(w, m, list + rest, s')
  {
    FirstThenRest(w, m, step, rest, s);
    T.SequencesCompose(w, m, list, rest, s');
  }

  lemma EmptyList(w: World, m: Macro, s: State)
    ensures ExecSteps(w, m, [], s) == Result(Done, s)
  {
  }

  // ---------------------------------------------------------------- branches

  /** An `if` asks its condition once, and goes on with `then` if it holds and with `else` if not. */
  lemma IfRuns(w: World, m: Macro, step: Step, rest: seq<Step>, s: State)
    requires step.kind.If? && ConditionKey in step.keys && !w.cancelled(s.tick)
    requires w.holds(s.tick + 1) ==> step.thenSteps.Block?
    ensures w.holds(s.tick + 1) ==>
              ExecSteps(w, m, [step] + rest, s) == ExecSteps(w, m, step.thenSteps.steps + rest, Later(Begin(s)))
    ensures !w.holds(s.tick + 1) ==>
              ExecSteps(w, m, [step] + rest, s) == ExecSteps(w, m, Listed(step.elseSteps) + rest, Later(Begin(s)))
  {
    var list := if w.holds(s.tick + 1) then step.thenSteps.steps else Listed(step.elseSteps);
    EmptyList(w, m, Later(Begin(s)));
    assert ExecStep(w, m, step, Begin(s)) == ExecSteps(w, m, list, Later(Begin(s)));
    ListThenRest(w, m, step, rest, s, list, Later(Begin(s)));
  }

  /** A `switch` goes on with the first case whose key is the one asked for, and with `default` if no
      case has it. */
  lemma SwitchRuns(w: World, m: Macro, step: Step, rest: seq<Step>, s: State, i: nat)
    requires step.kind.Switch? && OnKey in step.keys && !w.cancelled(s.tick)
    requires i <= |step.cases| && forall j | 0 <= j < i :: step.cases[j].key != w.choice(s.tick + 1)
    requires i < |step.cases| ==> step.cases[i].key == w.choice(s.tick + 1)
    ensures ExecSteps(w, m, [step] + rest, s)
            == ExecSteps(w, m, (if i < |step.cases| then step.cases[i].body else Listed(step.defaultSteps)) + rest,
                         Later(Begin(s)))
  {
    var list := if i < |step.cases| then step.cases[i].body else Listed(step.defaultSteps);
    assert CaseIndex(step.cases, w.choice(s.tick + 1)) == i;
    EmptyList(w, m, Later(Begin(s)));
    assert ExecStep(w, m, step, Begin(s)) == ExecSteps(w, m, list, Later(Begin(s)));
    ListThenRest(w, m, step, rest, s, list, Later(Begin(s)));
  }

  // ---------------------------------------------------------------- repetition

  /** How many items a `for_each` has, if it asks at tick `t`. */
  function Items(w: World, step: Step, t: nat): nat {
    if step.literalItems.Some? then step.literalItems.value else w.itemCount(t)
  }

  /** A `for_each` runs its body once for each item: of the literal list, or of the variable. */
  lemma ForEachRuns(w: World, m: Macro, step: Step, rest: seq<Step>, s: State)
    requires step.kind.ForEach? && InKey in step.keys && !w.cancelled(s.tick)
    requires Items(w, step, s.tick + 1) > 0 ==> AsKey in step.keys && step.doSteps.Block?
    ensures ExecSteps(w, m, [step] + rest, s)
            == ExecSteps(w, m, T.Repeated(Listed(step.doSteps), Items(w, step, s.tick + 1)) + rest, Later(Begin(s)))
  {
    var n := Items(w, step, s.tick + 1);
    var list := T.Repeated(Listed(step.doSteps), n);
    if n == 0 {
      EmptyList(w, m, Later(Begin(s)));
    } else {
      T.RepetitionUnrolls(w, m, step.doSteps.steps, n, Later(Begin(s)));
    }
    assert ExecStep(w, m, step, Begin(s)) == ExecItems(w, m, step.doSteps, n, Later(Begin(s)));
    ListThenRest(w, m, step, rest, s, list, Later(Begin(s)));
  }

  /** How many iterations a `loop` allows, 100 if it does not say. */
  function Iterations(step: Step): nat {
    match step.maxIterations
    case None => 100
    case Some(n) => if n < 0 then 0 else n
  }

  /** A `loop` without a condition runs its body as often as it allows. */
  lemma LoopRuns(w: World, m: Macro, step: Step, rest: seq<Step>, s: State)
    requires step.kind.Loop? && !step.whileGiven && !w.cancelled(s.tick)
    requires Iterations(step) > 0 ==> step.doSteps.Block?
    ensures ExecSteps(w, m, [step] + rest, s)
            == ExecSteps(w, m, T.Repeated(Listed(step.doSteps), Iterations(step)) + rest, Begin(s))
  {
    var n := Iterations(step);
    var list := T.Repeated(Listed(step.doSteps), n);
    EmptyList(w, m, Begin(s));
    if n > 0 {
      T.RepetitionUnrolls(w, m, step.doSteps.steps, n, Begin(s));
    }
    assert ExecStep(w, m, step, Begin(s)) == ExecSteps(w, m, list, Begin(s));
    ListThenRest(w, m, step, rest, s, list, Begin(s));
  }

  /** Rounds of a loop: the condition, asked before each, holds, and the body ends normally. */
  ghost predicate Rounds(w: World, m: Macro, body: seq<Step>, states: seq<State>) {
    && states != []
    && forall i | 0 <= i < |states| - 1 ::
         w.holds(states[i].tick) && ExecSteps(w, m, body, Later(states[i])) == Result(Done, states[i + 1])
  }

  lemma RoundsCons(w: World, m: Macro, body: seq<Step>, s: State, states: seq<State>)
    requires Rounds(w, m, body, states) && w.holds(s.tick)
    requires ExecSteps(w, m, body, Later(s)) == Result(Done, states[0])
    ensures Rounds(w, m, body, [s] + states)
  {
    var all := [s] + states;
    forall i | 0 <= i < |all| - 1
      ensures w.holds(all[i].tick) && ExecSteps(w, m, body, Later(all[i])) == Result(Done, all[i + 1])
    {
      if i > 0 {
        assert all[i] == states[i - 1] && all[i + 1] == states[i];
      }
    }
  }

  lemma {:induction false} RoundsOfLoop(w: World, m: Macro, b: Block, n: nat, s: State) returns (states: seq<State>)
    requires b.Block?
    ensures Rounds(w, m, b.steps, states) && states[0] == s && |states| <= n + 1
    ensures var last := states[|states| - 1];
            var r := ExecSteps(w, m, b.steps, Later(last));
            if |states| == n + 1 then ExecLoop(w, m, b, true, n, s) == Result(Done, last)
            else if !w.holds(last.tick) then ExecLoop(w, m, b, true, n, s) == Result(Done, Later(last))
            else !r.sig.Done? && ExecLoop(w, m, b, true, n, s) == r
  {
    states := [s];
    assert s.Ask() == Later(s);
    if n > 0 && w.holds(s.tick) {
      var r := ExecSteps(w, m, b.steps, Later(s));
      assert ExecBlock(w, m, b, true, Later(s)) == r;
      if r.sig.Done? {
        var more := RoundsOfLoop(w, m, b, n - 1, r.st);
        RoundsCons(w, m, b.steps, s, more);
        states := [s] + more;
        assert states[|states| - 1] == more[|more| - 1];
      }
    }
  }

  /** A `loop` with a condition asks it before each round.  It goes on with the rest when it has run
      as often as it allows, or when the condition first fails; an exception of the body ends it. */
  lemma GuardedLoopRuns(w: World, m: Macro, step: Step, rest: seq<Step>, s: State) returns (states: seq<State>)
    requires step.kind.Loop? && step.whileGiven && !w.cancelled(s.tick)
    requires Iterations(step) > 0 && w.holds(s.tick + 1) ==> step.doSteps.Block?
    ensures Rounds(w, m, Listed(step.doSteps), states) && states[0] == Begin(s) && |states| <= Iterations(step) + 1
    ensures var last := states[|states| - 1];
            var r, all := ExecSteps(w, m, Listed(step.doSteps), Later(last)), ExecSteps(w, m, [step] + rest, s);
            if |states| == Iterations(step) + 1 then all == ExecSteps(w, m, rest, last)
            else if !w.holds(last.tick) then all == ExecSteps(w, m, rest, Later(last))
            else !r.sig.Done? && all == r
  {
    states := [Begin(s)];
    if step.doSteps.Block? {
      states := RoundsOfLoop(w, m, step.doSteps, Iterations(step), Begin(s));
    }
    FirstThenRest(w, m, step, rest, s);
    LoopIsItsRounds(w, m, step, Begin(s));
  }

  lemma LoopIsItsRounds(w: World, m: Macro, step: Step, s: State)
    requires step.kind.Loop? && step.whileGiven
    ensures ExecStep(w, m, step, s) == ExecLoop(w, m, step.doSteps, true, Iterations(step), s)
  {
  }

  // ---------------------------------------------------------------- retry and try

  /** How many attempts a `retry` allows, three if it does not say. */
  function Attempts(step: Step): nat {
    match step.maxAttempts
    case None => 3
    case Some(n) => if n < 0 then 0 else n
  }

  /** The failures after which a `retry` tries again. */
  predicate Transient(code: string) {
    code == "busy" || code == "rate_limited" || code == "observe_failed" || code == "stale_snapshot"
  }

  function AttemptFrom(w: World, m: Macro, body: seq<Step>, s: State): Result {
    ExecSteps(w, m, body, State(s.tick, s.ok, s.outcome, s.stepsRun, s.trace + [Attempt]))
  }

  /** An attempt from `s` ends, by itself or by `_Stop`, in a transient failure, and is rolled back:
      the flag and the outcome are what they were before it, and all else stays. */
  predicate RollsBack(w: World, m: Macro, body: seq<Step>, s: State, s': State) {
    var r := AttemptFrom(w, m, body, s);
    && (r.sig.Done? || r.sig.Stopped?) && !r.st.ok && Transient(r.st.outcome)
    && s' == State(r.st.tick, s.ok, s.outcome, r.st.stepsRun, r.st.trace + [RolledBack(|s.trace|)])
  }

  ghost predicate RolledBackAttempts(w: World, m: Macro, body: seq<Step>, states: seq<State>) {
    states != [] && forall i | 0 <= i < |states| - 1 :: RollsBack(w, m, body, states[i], states[i + 1])
  }

  lemma TransientIsRetryable(code: string)
    ensures Transient(code) <==> code in RETRYABLE
  {
  }

  lemma AttemptsCons(w: World, m: Macro, body: seq<Step>, s: State, states: seq<State>)
    requires RolledBackAttempts(w, m, body, states) && RollsBack(w, m, body, s, states[0])
    ensures RolledBackAttempts(w, m, body, [s] + states)
  {
    var all := [s] + states;
    forall i | 0 <= i < |all| - 1
      ensures RollsBack(w, m, body, all[i], all[i + 1])
    {
      if i > 0 {
        assert RollsBack(w, m, body, states[i - 1], states[i - 1 + 1]);
      }
    }
  }

  /** How the last attempt decides a retry that allows `n` and has made `made`. */
  ghost predicate Decides(n: nat, made: nat, last: Result, r: Result) {
    if !last.sig.Done? && !last.sig.Stopped? then r == last
    else if last.st.ok then r == Result(Done, last.st)
    else (made == n || !Transient(last.st.outcome)) && r == Result(Stopped, last.st)
  }

  lemma {:induction false} AttemptsOfRetry(w: World, m: Macro, b: Block, n: nat, s: State) returns (states: seq<State>)
    requires b.Block? && n > 0
    ensures RolledBackAttempts(w, m, b.steps, states) && states[0] == s && |states| <= n
    ensures Decides(n, |states|, AttemptFrom(w, m, b.steps, states[|states| - 1]), ExecRetry(w, m, b, n, s))
  {
    states := [s];
    var r := AttemptFrom(w, m, b.steps, s);
    assert ExecBlock(w, m, b, true, s.Log(Attempt)) == r;
    TransientIsRetryable(r.st.outcome);
    if (r.sig.Done? || r.sig.Stopped?) && !r.st.ok && Transient(r.st.outcome) && n > 1 {
      var back := r.st.(ok := s.ok, outcome := s.outcome).Log(RolledBack(|s.trace|));
      var more := AttemptsOfRetry(w, m, b, n - 1, back);
      AttemptsCons(w, m, b.steps, s, more);
      states := [s] + more;
      assert states[|states| - 1] == more[|more| - 1];
    }
  }

  /** A `retry` makes attempts until one is ok, fails for good, or is the last allowed: an ok one goes
      on with the rest, any other ends by `_Stop`, and other exceptions pass. */
  lemma RetryRuns(w: World, m: Macro, step: Step, rest: seq<Step>, s: State) returns (states: seq<State>)
    requires step.kind.Retry? && step.doSteps.Block? && Attempts(step) > 0 && !w.cancelled(s.tick)
    ensures RolledBackAttempts(w, m, step.doSteps.steps, states)
    ensures states[0] == Begin(s) && |states| <= Attempts(step)
    ensures var last, all := AttemptFrom(w, m, step.doSteps.steps, states[|states| - 1]),
                             ExecSteps(w, m, [step] + rest, s);
            if !last.sig.Done? && !last.sig.Stopped? then all == last
            else if last.st.ok then all == ExecSteps(w, m, rest, last.st)
            else
              && (|states| == Attempts(step) || !Transient(last.st.outcome))
              && all == Result(Stopped, last.st)
  {
    states := AttemptsOfRetry(w, m, step.doSteps, Attempts(step), Begin(s));
    FirstThenRest(w, m, step, rest, s);
    assert ExecStep(w, m, step, Begin(s)) == ExecRetry(w, m, step.doSteps, Attempts(step), Begin(s));
  }

  /** A `retry` that allows no attempt does nothing. */
  lemma NoAttempts(w: World, m: Macro, step: Step, rest: seq<Step>, s: State)
    requires step.kind.Retry? && Attempts(step) == 0 && !w.cancelled(s.tick)
    ensures ExecSteps(w, m, [step] + rest, s) == ExecSteps(w, m, rest, Begin(s))
  {
    FirstThenRest(w, m, step, rest, s);
  }

  /** A `try` runs its list and then, if that ended by itself or by `_Stop`, `finally` and the rest. */
  lemma TryRuns(w: World, m: Macro, step: Step, rest: seq<Step>, s: State)
    requires step.kind.Try? && step.doSteps.Block? && !w.cancelled(s.tick)
    ensures var r := ExecSteps(w, m, step.doSteps.steps, Begin(s));
            ExecSteps(w, m, [step] + rest, s)
            == if r.sig.Done? || r.sig.Stopped? then ExecSteps(w, m, Listed(step.finallySteps) + rest, r.st) else r
  {
    FirstThenRest(w, m, step, rest, s);
    var r := ExecSteps(w, m, step.doSteps.steps, Begin(s));
    EmptyList(w, m, r.st);
    T.SequencesCompose(w, m, Listed(step.finallySteps), rest, r.st);
  }

  // ---------------------------------------------------------------- single steps

  function Refuse(s: State, code: string): Result {
    Result(Stopped, State(s.tick, false, code, s.stepsRun, s.trace + [Failed(code)]))
  }

  /** A `confirm` asks the user once, and goes on exactly if the answer is yes. */
  lemma ConfirmRuns(w: World, m: Macro, step: Step, rest: seq<Step>, s: State)
    requires step.kind.Confirm? && !w.cancelled(s.tick)
    ensures ExecSteps(w, m, [step] + rest, s)
            == if w.confirms(s.tick + 1) then ExecSteps(w, m, rest, Later(Begin(s)))
               else Refuse(Later(Begin(s)), "confirmation_required")
  {
    FirstThenRest(w, m, step, rest, s);
  }

  /** A `stop` ends the list there. */
  lemma StopRuns(w: World, m: Macro, step: Step, rest: seq<Step>, s: State)
    requires step.kind.Stop? && !w.cancelled(s.tick)
    ensures var r := ExecSteps(w, m, [step] + rest, s);
            r.sig.Stopped? && r.st == Begin(s).(trace := s.trace + [Began(s.tick), Halted])
  {
    FirstThenRest(w, m, step, rest, s);
    assert s.trace + [Began(s.tick)] + [Halted] == s.trace + [Began(s.tick), Halted];
  }

  /** Waiting, notes, races and assignments leave the record alone. */
  lemma QuietStepsRun(w: World, m: Macro, step: Step, rest: seq<Step>, s: State)
    requires !w.cancelled(s.tick)
    requires step.kind.Wait? || step.kind.AuditNote? || step.kind.Race? || (step.kind.SetVar? && VarKey in step.keys)
    ensures ExecSteps(w, m, [step] + rest, s) == ExecSteps(w, m, rest, Begin(s))
  {
    FirstThenRest(w, m, step, rest, s);
  }

  /** The verbs that are mapped to an action, two of them by way of a key of their own. */
  predicate Mapped(step: Step) {
    && step.kind.Verb?
    && match step.kind.verb
       case Tap | TypeText | SetText | Swipe => true
       case Launch => PackageKey in step.keys
       case PressKey => KeycodeKey in step.keys
       case ScrollUntil | Intent | ClipboardRead | ClipboardWrite | ClipboardClear => false
       case NotificationReply | NotificationDismiss => false
  }

  /** Once let through, a mapped verb calls `run_action`, which decides whether the list goes on. */
  lemma ActionRuns(w: World, m: Macro, step: Step, rest: seq<Step>, s: State)
    requires Mapped(step) && !w.cancelled(s.tick) && T.Permitted(w, m, s.tick + 1)
    ensures var asked := if w.gate(s.tick + 1).Allow? then Later(Begin(s)) else Later(Later(Begin(s)));
            var trace := s.trace + [Began(s.tick), Acted(s.tick + 1)];
            var called := State(asked.tick + 1, s.ok, s.outcome, s.stepsRun, trace);
            var counted := State(asked.tick + 1, s.ok, s.outcome, s.stepsRun + 1, trace);
            ExecSteps(w, m, [step] + rest, s)
            == match w.device(asked.tick)
               case OkReply => ExecSteps(w, m, rest, counted)
               case ErrorReply(code) => Refuse(counted, code)
               case NoReply => Result(Signal.Fault(ActionRaised), called)
  {
    FirstThenRest(w, m, step, rest, s);
    assert s.trace + [Began(s.tick)] + [Acted(s.tick + 1)] == s.trace + [Began(s.tick), Acted(s.tick + 1)];
    assert MappingFault(step).None?;
  }

  /** Otherwise the list ends there, with the code that says why, and nothing is called. */
  lemma RefusalRuns(w: World, m: Macro, step: Step, rest: seq<Step>, s: State)
    requires step.kind.Verb? && !w.cancelled(s.tick) && !T.Permitted(w, m, s.tick + 1)
    ensures ExecSteps(w, m, [step] + rest, s)
            == if w.gate(s.tick + 1).Deny? then Refuse(Later(Begin(s)), "guarded_action")
               else if m.unattended then Refuse(Later(Begin(s)), "confirmation_required")
               else Refuse(Later(Later(Begin(s))), "confirmation_required")
  {
    FirstThenRest(w, m, step, rest, s);
  }

  /** A verb that is not mapped, or lacks the key its mapping reads, raises once it is let through. */
  lemma UnmappedRuns(w: World, m: Macro, step: Step, rest: seq<Step>, s: State)
    requires step.kind.Verb? && !Mapped(step) && !w.cancelled(s.tick) && T.Permitted(w, m, s.tick + 1)
    ensures ExecSteps(w, m, [step] + rest, s).sig
            == Signal.Fault(if step.kind.verb.Launch? || step.kind.verb.PressKey? then MissingVerbKey else UnmappedVerb)
  {
    FirstThenRest(w, m, step, rest, s);
    assert MappingFault(step).Some?;
  }

  // ---------------------------------------------------------------- missing keys

  /** A step that begins at tick `t` comes to a key that it lacks: a branch not taken and a body not
      run are never looked up. */
  predicate MissesKey(w: World, step: Step, t: nat) {
    match step.kind
    case If => ConditionKey !in step.keys || (w.holds(t + 1) && step.thenSteps.Absent?)
    case Switch => OnKey !in step.keys
    case ForEach =>
      InKey !in step.keys || (Items(w, step, t + 1) > 0 && (AsKey !in step.keys || step.doSteps.Absent?))
    case Loop => step.doSteps.Absent? && Iterations(step) > 0 && (step.whileGiven ==> w.holds(t + 1))
    case Retry => step.doSteps.Absent? && Attempts(step) > 0
    case Try => step.doSteps.Absent?
    case _ => false
  }

  /** The exception a step raises by itself, if it does. */
  function RaisesAt(w: World, step: Step, t: nat): Option<Fault> {
    if step.kind.Unknown? then Some(UnsupportedStep)
    else if step.kind.SetVar? && VarKey !in step.keys then Some(MissingVar)
    else if MissesKey(w, step, t) then Some(MissingSubkey)
    else None
  }

  /** The record as it was, but for the tick, and for the attempt of a `retry`. */
  predicate Unmoved(step: Step, s: State, s': State) {
    && s'.ok == s.ok && s'.outcome == s.outcome && s'.stepsRun == s.stepsRun
    && s'.trace == if step.kind.Retry? then s.trace + [Attempt] else s.trace
  }

  lemma NoList(w: World, m: Macro, s: State)
    ensures ExecBlock(w, m, Absent, true, s) == Result(Signal.Fault(MissingSubkey), s)
  {
  }

  lemma StepRaises(w: World, m: Macro, step: Step, s: State)
    requires s.tick > 0 && RaisesAt(w, step, s.tick - 1).Some?
    ensures var r := ExecStep(w, m, step, s);
            r.sig == Signal.Fault(RaisesAt(w, step, s.tick - 1).value) && Unmoved(step, s, r.st)
  {
    match step.kind {
      case ForEach =>
        var n := Items(w, step, s.tick);
        if InKey in step.keys && AsKey in step.keys {
          NoList(w, m, s.Ask());
          assert ExecStep(w, m, step, s) == ExecItems(w, m, Absent, n, s.Ask());
        }
      case Loop =>
        NoList(w, m, if step.whileGiven then s.Ask() else s);
        assert ExecStep(w, m, step, s) == ExecLoop(w, m, Absent, step.whileGiven, Iterations(step), s);
      case Retry =>
        NoList(w, m, s.Log(Attempt));
        assert ExecStep(w, m, step, s) == ExecRetry(w, m, Absent, Attempts(step), s);
      case Try => NoList(w, m, s);
      case _ =>
    }
  }

  /** A step that comes to a key it lacks, or whose type is unknown, raises, with the record as it was
      when it began; nothing after it is run. */
  lemma MissingKeysRaise(w: World, m: Macro, step: Step, rest: seq<Step>, s: State)
    requires !w.cancelled(s.tick) && RaisesAt(w, step, s.tick).Some?
    ensures var r := ExecSteps(w, m, [step] + rest, s);
            && r.sig == Signal.Fault(RaisesAt(w, step, s.tick).value)
            && Unmoved(step, Begin(s), r.st)
  {
    FirstThenRest(w, m, step, rest, s);
    StepRaises(w, m, step, Begin(s));
  }
}
