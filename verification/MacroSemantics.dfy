/** What a macro run does: a big-step semantics of the interpreter over a world of oracles.

    Everything the interpreter asks of its surroundings (the cancellation token, conditions, the
    user, the gate, the device) is answered by a function of a tick that advances with every
    question, so a statement for all worlds holds for every pattern of answers. */
module MacroSemantics {
  import opened Common
  import opened MacroSyntax
  import A = Autonomy

  /** What `run_action` answers: an ok envelope, an error envelope, or an exception of its own. */
  datatype Reply = OkReply | ErrorReply(code: string) | NoReply

  datatype World = World(
    cancelled: nat -> bool,            // is the cancellation token set?
    holds: nat -> bool,                // does a condition hold?
    choice: nat -> string,             // the interpolated key of a switch
    itemCount: nat -> nat,             // how many items a for_each variable holds
    confirms: nat -> bool,             // does the user confirm?
    gate: nat -> A.Verdict,            // the verdict of the gate
    classified: nat -> Option<Risk>,   // the classified risk; None: the classifier raised
    ledger: nat -> seq<A.Record>,      // the grant ledger as read from disk
    clock: nat -> Time,
    device: nat -> Reply)              // run_action

  datatype Macro = Macro(name: string, requireConfirm: bool, unattended: bool)

  datatype Event =
    | Began(at: nat)            // a step begins; the token was read at tick `at`
    | Refused(at: nat)          // a step does not begin; the token was read at tick `at`
    | Acted(at: nat)            // run_action was called; the gate was asked at tick `at`
    | Failed(code: string)      // a failed action, a gate refusal or a declined confirmation
    | Halted                    // a `stop` step was executed
    | Attempt                   // a retry attempt begins
    | RolledBack(start: nat)    // the attempt that began at trace position `start` is rolled back

  /** The exceptions nothing in the engine catches: of a control step (an unsupported type, an absent
      key), of the mapping of a verb (no mapping, an absent key), and whatever `run_action` raises. */
  datatype Fault = UnsupportedStep | MissingSubkey | MissingVar | UnmappedVerb | MissingVerbKey | ActionRaised

  /** How control leaves a step: normally, or by one of the exceptions. */
  datatype Signal = Done | Stopped | Cancelled | Fault(fault: Fault)

  datatype State = State(tick: nat, ok: bool, outcome: string, stepsRun: nat, trace: seq<Event>) {
    function Ask(): State { this.(tick := tick + 1) }

    function Log(e: Event): State { this.(trace := trace + [e]) }

    function Fail(code: string): State { this.(ok := false, outcome := code, trace := trace + [Failed(code)]) }
  }

  datatype Result = Result(sig: Signal, st: State)

  const RETRYABLE: set<string> := {"busy", "rate_limited", "observe_failed", "stale_snapshot"}

  const INITIAL := State(0, true, "ok", 0, [])

  /** The engine's own gate: only an unattended run is held up by a missing grant. */
  function DefaultGate(w: World, m: Macro, t: nat): A.Verdict {
    var risk := if w.classified(t).Some? then w.classified(t).value else Low;
    var verdict := A.Decide(m.name, m.requireConfirm, risk, A.LiveGrants(w.ledger(t), w.clock(t)));
    if verdict.Confirm? && !m.unattended then A.Allow else verdict
  }

  ghost predicate UsesDefaultGate(w: World, m: Macro) {
    forall t: nat :: w.gate(t) == DefaultGate(w, m, t)
  }

  /** Six verbs are mapped to actions, two of them by way of a key of their own. */
  function MappingFault(step: Step): Option<Fault>
    requires step.kind.Verb?
  {
    match step.kind.verb
    case Tap | TypeText | SetText | Swipe => None
    case Launch => if PackageKey in step.keys then None else Some(MissingVerbKey)
    case PressKey => if KeycodeKey in step.keys then None else Some(MissingVerbKey)
    case _ => Some(UnmappedVerb)
  }

  function ExecAction(w: World, m: Macro, step: Step, s: State): Result
    requires step.kind.Verb?
  {
    var asked := s.Ask();
    match w.gate(s.tick)
    case Deny => Result(Stopped, asked.Fail("guarded_action"))
    case Confirm =>
      if m.unattended then Result(Stopped, asked.Fail("confirmation_required"))
      else if !w.confirms(asked.tick) then Result(Stopped, asked.Ask().Fail("confirmation_required"))
      else Perform(w, step, s.tick, asked.Ask())
    case Allow => Perform(w, step, s.tick, asked)
  }

  /** The verb is mapped once the gate has let it through. */
  function Perform(w: World, step: Step, gateTick: nat, s: State): Result
    requires step.kind.Verb?
  {
    var fault := MappingFault(step);
    if fault.Some? then Result(Signal.Fault(fault.value), s) else Act(w, gateTick, s)
  }

  /** `steps_run` counts the calls of `run_action` that returned. */
  function Act(w: World, gateTick: nat, s: State): Result {
    var called := s.Ask().Log(Acted(gateTick));
    var acted := called.(stepsRun := s.stepsRun + 1);
    match w.device(s.tick)
    case OkReply => Result(Done, acted)
    case ErrorReply(code) => Result(Stopped, acted.Fail(code))
    case NoReply => Result(Signal.Fault(ActionRaised), called)
  }

  function CaseIndex(cases: seq<Case>, key: string): (i: nat)
    ensures i <= |cases| && (i < |cases| ==> cases[i].key == key)
    ensures forall j | 0 <= j < i :: cases[j].key != key
  {
    if cases == [] || cases[0].key == key then 0 else 1 + CaseIndex(cases[1..], key)
  }

  function ExecSteps(w: World, m: Macro, steps: seq<Step>, s: State): Result
    decreases steps, 0, 0
  {
    if steps == [] then Result(Done, s)
    else if w.cancelled(s.tick) then Result(Cancelled, s.Ask().Log(Refused(s.tick)))
    else
      var r := ExecStep(w, m, steps[0], s.Ask().Log(Began(s.tick)));
      if r.sig.Done? then ExecSteps(w, m, steps[1..], r.st) else r
  }

  /** A nested list under a key: an absent key is a lookup error where the source subscripts it
      (`needed`) and an empty list where the source supplies a default. */
  function ExecBlock(w: World, m: Macro, b: Block, needed: bool, s: State): Result
    decreases b, 0, 0
  {
    match b
    case Absent => Result(if needed then Signal.Fault(MissingSubkey) else Done, s)
    case Block(steps) => ExecSteps(w, m, steps, s)
  }

  function ExecStep(w: World, m: Macro, step: Step, s: State): Result
    decreases step, 2, 0
  {
    match step.kind
    case Stop => Result(Stopped, s.Log(Halted))
    case SetVar => Result(if VarKey in step.keys then Done else Signal.Fault(MissingVar), s)
    case Wait => Result(Done, s)
    case AuditNote => Result(Done, s)
    case Verb(_) => ExecAction(w, m, step, s)
    case If =>
      if ConditionKey !in step.keys then Result(Signal.Fault(MissingSubkey), s)
      else if w.holds(s.tick) then ExecBlock(w, m, step.thenSteps, true, s.Ask())
      else ExecBlock(w, m, step.elseSteps, false, s.Ask())
    case Switch =>
      if OnKey !in step.keys then Result(Signal.Fault(MissingSubkey), s)
      else
        var i := CaseIndex(step.cases, w.choice(s.tick));
        if i < |step.cases| then ExecSteps(w, m, step.cases[i].body, s.Ask())
        else ExecBlock(w, m, step.defaultSteps, false, s.Ask())
    case ForEach =>
      if InKey !in step.keys then Result(Signal.Fault(MissingSubkey), s)
      else
        var n := if step.literalItems.Some? then step.literalItems.value else w.itemCount(s.tick);
        if n > 0 && AsKey !in step.keys then Result(Signal.Fault(MissingSubkey), s.Ask())
        else ExecItems(w, m, step.doSteps, n, s.Ask())
    case Loop => ExecLoop(w, m, step.doSteps, step.whileGiven, MaxIterations(step), s)
    case Retry => ExecRetry(w, m, step.doSteps, MaxAttempts(step), s)
    case Try =>
      var r := ExecBlock(w, m, step.doSteps, true, s);
      if r.sig.Done? || r.sig.Stopped? then ExecBlock(w, m, step.finallySteps, false, r.st) else r
    case Confirm =>
      if w.confirms(s.tick) then Result(Done, s.Ask())
      else Result(Stopped, s.Ask().Fail("confirmation_required"))
    case Race => Result(Done, s)
    case Unknown(_) => Result(Signal.Fault(UnsupportedStep), s)
  }

  function MaxIterations(step: Step): int {
    if step.maxIterations.Some? then step.maxIterations.value else 100
  }

  function MaxAttempts(step: Step): int {
    if step.maxAttempts.Some? then step.maxAttempts.value else 3
  }

  /** `n` items still to go. */
  function ExecItems(w: World, m: Macro, b: Block, n: nat, s: State): Result
    decreases b, 1, n
  {
    if n == 0 then Result(Done, s)
    else
      var r := ExecBlock(w, m, b, true, s);
      if r.sig.Done? then ExecItems(w, m, b, n - 1, r.st) else r
  }

  /** `n` iterations still allowed. */
  function ExecLoop(w: World, m: Macro, b: Block, guarded: bool, n: int, s: State): Result
    decreases b, 1, if n < 0 then 0 else n
  {
    if n <= 0 then Result(Done, s)
    else if guarded && !w.holds(s.tick) then Result(Done, s.Ask())
    else
      var r := ExecBlock(w, m, b, true, if guarded then s.Ask() else s);
      if r.sig.Done? then ExecLoop(w, m, b, guarded, n - 1, r.st) else r
  }

  /** `n` attempts still allowed. */
  function ExecRetry(w: World, m: Macro, b: Block, n: int, s: State): Result
    decreases b, 1, if n < 0 then 0 else n
  {
    if n <= 0 then Result(Done, s)
    else
      var r := ExecBlock(w, m, b, true, s.Log(Attempt));
      if !r.sig.Done? && !r.sig.Stopped? then r
      else if r.st.ok then Result(Done, r.st)
      else if r.st.outcome !in RETRYABLE || n == 1 then Result(Stopped, r.st)
      else ExecRetry(w, m, b, n - 1, r.st.(ok := s.ok, outcome := s.outcome).Log(RolledBack(|s.trace|)))
  }

  // ---------------------------------------------------------------- a whole run

  datatype Envelope = OkEnvelope | FailedEnvelope(outcome: string) | CancelledEnvelope | Raised(fault: Fault)

  function EnvelopeOf(r: Result): Envelope {
    match r.sig
    case Cancelled => CancelledEnvelope
    case Fault(f) => Raised(f)
    case Done | Stopped => if r.st.ok then OkEnvelope else FailedEnvelope(r.st.outcome)
  }

  function Run(w: World, m: Macro, actions: seq<Step>): Result {
    ExecSteps(w, m, actions, INITIAL)
  }
}
