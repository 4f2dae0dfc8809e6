/** The interpreter in the source's own form: one mutable record, loops with counters, and
    exceptions (here: signals) unwinding through `try` and `retry`. */
module MacroEngine {
  import opened MacroSyntax
  import opened MacroSemantics
  import A = Autonomy

  class Engine {
    const w: World
    const m: Macro
    var ok: bool
    var outcome: string
    var stepsRun: nat
    var tick: nat
    ghost var trace: seq<Event>

    ghost function View(): State
      reads this
    {
      State(tick, ok, outcome, stepsRun, trace)
    }

    constructor (w: World, m: Macro)
      ensures this.w == w && this.m == m && View() == INITIAL
    {
      this.w, this.m := w, m;
      ok, outcome, stepsRun, tick, trace := true, "ok", 0, 0, [];
    }

    method RunMacro(actions: seq<Step>) returns (env: Envelope)
      requires View() == INITIAL
      modifies this
      ensures View() == Run(w, m, actions).st
      ensures env == EnvelopeOf(Run(w, m, actions))
    {
      var sig := Steps(actions);
      match sig {
        case Cancelled => env := CancelledEnvelope;
        case Fault(f) => env := Raised(f);
        case Done => env := if ok then OkEnvelope else FailedEnvelope(outcome);
        case Stopped => env := if ok then OkEnvelope else FailedEnvelope(outcome);
      }
    }

    method Steps(steps: seq<Step>) returns (sig: Signal)
      modifies this
      ensures Result(sig, View()) == ExecSteps(w, m, steps, old(View()))
      decreases steps, 0
    {
      for i := 0 to |steps|
        invariant ExecSteps(w, m, steps[i..], View()) == ExecSteps(w, m, steps, old(View()))
      {
        assert steps[i..][1..] == steps[i + 1..];
        var at := tick;
        tick := tick + 1;
        if w.cancelled(at) {
          trace := trace + [Refused(at)];
          return Cancelled;
        }
        trace := trace + [Began(at)];
        sig := OneStep(steps[i]);
        if !sig.Done? {
          return;
        }
      }
      sig := Done;
    }

    method Nested(b: Block, needed: bool) returns (sig: Signal)
      modifies this
      ensures Result(sig, View()) == ExecBlock(w, m, b, needed, old(View()))
      decreases b, 0
    {
      match b {
        case Absent => sig := if needed then Signal.Fault(MissingSubkey) else Done;
        case Block(steps) => sig := Steps(steps);
      }
    }

    method OneStep(step: Step) returns (sig: Signal)
      modifies this
      ensures Result(sig, View()) == ExecStep(w, m, step, old(View()))
      decreases step, 2
    {
      match step.kind {
        case Stop =>
          trace := trace + [Halted];
          sig := Stopped;
        case SetVar => sig := if VarKey in step.keys then Done else Signal.Fault(MissingVar);
        case Wait => sig := Done;
        case AuditNote => sig := Done;
        case Verb(_) => sig := Action(step);
        case If =>
          if ConditionKey !in step.keys {
            return Signal.Fault(MissingSubkey);
          }
          var branch := w.holds(tick);
          tick := tick + 1;
          if branch {
            sig := Nested(step.thenSteps, true);
          } else {
            sig := Nested(step.elseSteps, false);
          }
        case Switch =>
          if OnKey !in step.keys {
            return Signal.Fault(MissingSubkey);
          }
          var i := CaseIndex(step.cases, w.choice(tick));
          tick := tick + 1;
          if i < |step.cases| {
            sig := Steps(step.cases[i].body);
          } else {
            sig := Nested(step.defaultSteps, false);
          }
        case ForEach => sig := Items(step);
        case Loop => sig := Loop(step);
        case Retry => sig := Retry(step);
        case Try =>
          sig := Nested(step.doSteps, true);
          if sig.Done? || sig.Stopped? {
            sig := Nested(step.finallySteps, false);
          }
        case Confirm =>
          var yes := w.confirms(tick);
          tick := tick + 1;
          if yes {
            sig := Done;
          } else {
            Fail("confirmation_required");
            sig := Stopped;
          }
        case Race => sig := Done;
        case Unknown(_) => sig := Signal.Fault(UnsupportedStep);
      }
    }

    method Fail(code: string)
      modifies this
      ensures View() == old(View()).Fail(code)
    {
      ok, outcome := false, code;
      trace := trace + [Failed(code)];
    }

    method Action(step: Step) returns (sig: Signal)
      requires step.kind.Verb?
      modifies this
      ensures Result(sig, View()) == ExecAction(w, m, step, old(View()))
    {
      ghost var gateTick := tick;
      var decision := w.gate(tick);
      tick := tick + 1;
      if decision == A.Deny {
        Fail("guarded_action");
        return Stopped;
      }
      if decision == A.Confirm {
        if m.unattended {
          Fail("confirmation_required");
          return Stopped;
        }
        var yes := w.confirms(tick);
        tick := tick + 1;
        if !yes {
          Fail("confirmation_required");
          return Stopped;
        }
      }
      sig := Perform(step, gateTick);
    }

    method Perform(step: Step, ghost gateTick: nat) returns (sig: Signal)
      requires step.kind.Verb?
      modifies this
      ensures Result(sig, View()) == MacroSemantics.Perform(w, step, gateTick, old(View()))
    {
      var fault := MappingFault(step);
      if fault.Some? {
        return Signal.Fault(fault.value);
      }
      var reply := w.device(tick);
      tick := tick + 1;
      trace := trace + [Acted(gateTick)];
      if reply.NoReply? {
        return Signal.Fault(ActionRaised);
      }
      stepsRun := stepsRun + 1;
      if reply.ErrorReply? {
        Fail(reply.code);
        return Stopped;
      }
      sig := Done;
    }

    method Items(step: Step) returns (sig: Signal)
      requires step.kind.ForEach?
      modifies this
      ensures Result(sig, View()) == ExecStep(w, m, step, old(View()))
      decreases step, 1
    {
      if InKey !in step.keys {
        return Signal.Fault(MissingSubkey);
      }
      var n := if step.literalItems.Some? then step.literalItems.value else w.itemCount(tick);
      tick := tick + 1;
      if n > 0 && AsKey !in step.keys {
        return Signal.Fault(MissingSubkey);
      }
      label start:
      for i := 0 to n
        invariant ExecItems(w, m, step.doSteps, n - i, View())
               == ExecItems(w, m, step.doSteps, n, old@start(View()))
      {
        sig := Nested(step.doSteps, true);
        if !sig.Done? {
          return;
        }
      }
      sig := Done;
    }

    method Loop(step: Step) returns (sig: Signal)
      requires step.kind.Loop?
      modifies this
      ensures Result(sig, View()) == ExecStep(w, m, step, old(View()))
      decreases step, 1
    {
      var i, cap := 0, MaxIterations(step);
      while i < cap
        invariant ExecLoop(w, m, step.doSteps, step.whileGiven, cap - i, View())
               == ExecLoop(w, m, step.doSteps, step.whileGiven, cap, old(View()))
        decreases cap - i
      {
        if step.whileGiven {
          var again := w.holds(tick);
          tick := tick + 1;
          if !again {
            return Done;
          }
        }
        sig := Nested(step.doSteps, true);
        if !sig.Done? {
          return;
        }
        i := i + 1;
      }
      sig := Done;
    }

    method Retry(step: Step) returns (sig: Signal)
      requires step.kind.Retry?
      modifies this
      ensures Result(sig, View()) == ExecStep(w, m, step, old(View()))
      decreases step, 1
    {
      var attempt, attempts := 0, MaxAttempts(step);
      while attempt < attempts
        invariant ExecRetry(w, m, step.doSteps, attempts - attempt, View())
               == ExecRetry(w, m, step.doSteps, attempts, old(View()))
        decreases attempts - attempt
      {
        var savedOk, savedOutcome := ok, outcome;
        ghost var start := |trace|;
        trace := trace + [Attempt];
        sig := Nested(step.doSteps, true);
        if !sig.Done? && !sig.Stopped? {
          return;
        }
        if ok {
          return Done;
        }
        if outcome !in RETRYABLE || attempt == attempts - 1 {
          return Stopped;
        }
        ok, outcome := savedOk, savedOutcome;
        trace := trace + [RolledBack(start)];
        attempt := attempt + 1;
      }
      sig := Done;
    }
  }
}
