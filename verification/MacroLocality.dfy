/** A run depends only on the answers it asks for, so runs in two worlds can be joined. */
module MacroLocality {
  import opened Common
  import opened MacroSyntax
  import opened MacroSemantics
  import A = Autonomy

  predicate SameAt(w: World, w': World, t: nat) {
    && w.cancelled(t) == w'.cancelled(t) && w.holds(t) == w'.holds(t) && w.choice(t) == w'.choice(t)
    && w.itemCount(t) == w'.itemCount(t) && w.confirms(t) == w'.confirms(t)
    && w.gate(t) == w'.gate(t) && w.device(t) == w'.device(t)
  }

  ghost predicate Same(w: World, w': World, from: nat, to: nat) {
    forall t: nat | from <= t < to :: SameAt(w, w', t)
  }

  /** `r` and `r'` come from `s` in worlds `w` and `w'`: ticks pass, and worlds that agree on them
      give the same result. */
  ghost predicate Local(w: World, w': World, s: State, r: Result, r': Result) {
    s.tick <= r.st.tick && (Same(w, w', s.tick, r.st.tick) ==> r' == r)
  }

  lemma ActLocal(w: World, w': World, gateTick: nat, s: State)
    ensures Local(w, w', s, Act(w, gateTick, s), Act(w', gateTick, s))
  {
    assert Act(w, gateTick, s).st.tick == s.tick + 1;
    assert Same(w, w', s.tick, s.tick + 1) ==> SameAt(w, w', s.tick);
  }

  /** After the gate has asked for a confirmation. */
  function Confirmed(w: World, m: Macro, step: Step, gateTick: nat, s: State): Result
    requires step.kind.Verb?
  {
    if m.unattended then Result(Stopped, s.Fail("confirmation_required"))
    else if !w.confirms(s.tick) then Result(Stopped, s.Ask().Fail("confirmation_required"))
    else Perform(w, step, gateTick, s.Ask())
  }

  lemma PerformLocal(w: World, w': World, step: Step, gateTick: nat, s: State)
    requires step.kind.Verb?
    ensures Local(w, w', s, Perform(w, step, gateTick, s), Perform(w', step, gateTick, s))
  {
    ActLocal(w, w', gateTick, s);
  }

  lemma ConfirmedLocal(w: World, w': World, m: Macro, step: Step, gateTick: nat, s: State)
    requires step.kind.Verb?
    ensures Local(w, w', s, Confirmed(w, m, step, gateTick, s), Confirmed(w', m, step, gateTick, s))
  {
    if !m.unattended {
      var r, r' := Confirmed(w, m, step, gateTick, s), Confirmed(w', m, step, gateTick, s);
      PerformLocal(w, w', step, gateTick, s.Ask());
      AskLocal(w, w', s, r, r', if w.confirms(s.tick) then Perform(w', step, gateTick, s.Ask()) else r);
    }
  }

  lemma ActionLocal(w: World, w': World, m: Macro, step: Step, s: State)
    requires step.kind.Verb?
    ensures Local(w, w', s, ExecAction(w, m, step, s), ExecAction(w', m, step, s))
  {
    var r, r' := ExecAction(w, m, step, s), ExecAction(w', m, step, s);
    if w.gate(s.tick).Deny? {
      AskLocal(w, w', s, r, r', r);
    } else if w.gate(s.tick).Confirm? {
      ConfirmedLocal(w, w', m, step, s.tick, s.Ask());
      AskLocal(w, w', s, r, r', Confirmed(w', m, step, s.tick, s.Ask()));
    } else {
      PerformLocal(w, w', step, s.tick, s.Ask());
      AskLocal(w, w', s, r, r', Perform(w', step, s.tick, s.Ask()));
    }
  }

  lemma {:induction false} StepsLocal(w: World, w': World, m: Macro, steps: seq<Step>, s: State)
    ensures Local(w, w', s, ExecSteps(w, m, steps, s), ExecSteps(w', m, steps, s))
    decreases steps, 0, 0
  {
    if steps != [] {
      var r := ExecSteps(w, m, steps, s);
      var begun := s.Ask().Log(Began(s.tick));
      if !w.cancelled(s.tick) {
        var first := ExecStep(w, m, steps[0], begun);
        StepLocal(w, w', m, steps[0], begun);
        if first.sig.Done? {
          StepsLocal(w, w', m, steps[1..], first.st);
        }
      }
      assert Same(w, w', s.tick, r.st.tick) ==> SameAt(w, w', s.tick);
    }
  }

  lemma {:induction false} BlockLocal(w: World, w': World, m: Macro, b: Block, needed: bool, s: State)
    ensures Local(w, w', s, ExecBlock(w, m, b, needed, s), ExecBlock(w', m, b, needed, s))
    decreases b, 0, 0
  {
    if b.Block? {
      StepsLocal(w, w', m, b.steps, s);
    }
  }

  /** A step that asks one question and then does what the answer selects. */
  lemma AskLocal(w: World, w': World, s: State, r: Result, r': Result, rest: Result)
    requires SameAt(w, w', s.tick) ==> Local(w, w', s.Ask(), r, rest)
    requires s.tick < r.st.tick
    requires SameAt(w, w', s.tick) ==> r' == rest
    ensures Local(w, w', s, r, r')
  {
    if Same(w, w', s.tick, r.st.tick) {
      assert SameAt(w, w', s.tick);
    }
  }

  lemma {:induction false} BranchLocal(w: World, w': World, m: Macro, step: Step, s: State)
    requires (step.kind.If? && ConditionKey in step.keys) || (step.kind.Switch? && OnKey in step.keys)
    ensures Local(w, w', s, ExecStep(w, m, step, s), ExecStep(w', m, step, s))
    decreases step, 1, 0
  {
    var r, r' := ExecStep(w, m, step, s), ExecStep(w', m, step, s);
    if step.kind.If? {
      var b, needed := if w.holds(s.tick) then step.thenSteps else step.elseSteps, w.holds(s.tick);
      BlockLocal(w, w', m, b, needed, s.Ask());
      AskLocal(w, w', s, r, r', ExecBlock(w', m, b, needed, s.Ask()));
    } else {
      var i := CaseIndex(step.cases, w.choice(s.tick));
      if i < |step.cases| {
        StepsLocal(w, w', m, step.cases[i].body, s.Ask());
        AskLocal(w, w', s, r, r', ExecSteps(w', m, step.cases[i].body, s.Ask()));
      } else {
        BlockLocal(w, w', m, step.defaultSteps, false, s.Ask());
        AskLocal(w, w', s, r, r', ExecBlock(w', m, step.defaultSteps, false, s.Ask()));
      }
    }
  }

  lemma {:induction false} ForEachLocal(w: World, w': World, m: Macro, step: Step, s: State)
    requires step.kind.ForEach? && InKey in step.keys
    ensures Local(w, w', s, ExecStep(w, m, step, s), ExecStep(w', m, step, s))
    decreases step, 1, 0
  {
    var r, r' := ExecStep(w, m, step, s), ExecStep(w', m, step, s);
    var n := if step.literalItems.Some? then step.literalItems.value else w.itemCount(s.tick);
    ItemsLocal(w, w', m, step.doSteps, n, s.Ask());
    AskLocal(w, w', s, r, r',
             if n > 0 && AsKey !in step.keys then r else ExecItems(w', m, step.doSteps, n, s.Ask()));
  }

  lemma {:induction false} TryLocal(w: World, w': World, m: Macro, step: Step, s: State)
    requires step.kind.Try?
    ensures Local(w, w', s, ExecStep(w, m, step, s), ExecStep(w', m, step, s))
    decreases step, 1, 0
  {
    BlockLocal(w, w', m, step.doSteps, true, s);
    var first := ExecBlock(w, m, step.doSteps, true, s);
    if first.sig.Done? || first.sig.Stopped? {
      BlockLocal(w, w', m, step.finallySteps, false, first.st);
    }
  }

  lemma {:induction false} StepLocal(w: World, w': World, m: Macro, step: Step, s: State)
    ensures Local(w, w', s, ExecStep(w, m, step, s), ExecStep(w', m, step, s))
    decreases step, 2, 0
  {
    match step.kind {
      case Verb(_) => ActionLocal(w, w', m, step, s);
      case If => if ConditionKey in step.keys { BranchLocal(w, w', m, step, s); }
      case Switch => if OnKey in step.keys { BranchLocal(w, w', m, step, s); }
      case ForEach => if InKey in step.keys { ForEachLocal(w, w', m, step, s); }
      case Loop => LoopLocal(w, w', m, step.doSteps, step.whileGiven, MaxIterations(step), s);
      case Retry => RetryLocal(w, w', m, step.doSteps, MaxAttempts(step), s);
      case Try => TryLocal(w, w', m, step, s);
      case Confirm =>
        var r := ExecStep(w, m, step, s);
        assert Same(w, w', s.tick, r.st.tick) ==> SameAt(w, w', s.tick);
      case _ =>
    }
  }

  lemma {:induction false} ItemsLocal(w: World, w': World, m: Macro, b: Block, n: nat, s: State)
    ensures Local(w, w', s, ExecItems(w, m, b, n, s), ExecItems(w', m, b, n, s))
    decreases b, 1, n
  {
    if n > 0 {
      BlockLocal(w, w', m, b, true, s);
      var r := ExecBlock(w, m, b, true, s);
      if r.sig.Done? {
        ItemsLocal(w, w', m, b, n - 1, r.st);
      }
    }
  }

  /** The part of a loop that follows a condition found to hold. */
  lemma {:induction false} LoopBodyLocal(w: World, w': World, m: Macro, b: Block, guarded: bool, n: int, s0: State)
    requires n > 0
    ensures var first, first' := ExecBlock(w, m, b, true, s0), ExecBlock(w', m, b, true, s0);
            Local(w, w', s0,
                  if first.sig.Done? then ExecLoop(w, m, b, guarded, n - 1, first.st) else first,
                  if first'.sig.Done? then ExecLoop(w', m, b, guarded, n - 1, first'.st) else first')
    decreases b, 1, n, 0
  {
    BlockLocal(w, w', m, b, true, s0);
    var r := ExecBlock(w, m, b, true, s0);
    if r.sig.Done? {
      LoopLocal(w, w', m, b, guarded, n - 1, r.st);
    }
  }

  lemma {:induction false} LoopLocal(w: World, w': World, m: Macro, b: Block, guarded: bool, n: int, s: State)
    ensures Local(w, w', s, ExecLoop(w, m, b, guarded, n, s), ExecLoop(w', m, b, guarded, n, s))
    decreases b, 1, if n < 0 then 0 else n, 1
  {
    if n > 0 {
      var r, r' := ExecLoop(w, m, b, guarded, n, s), ExecLoop(w', m, b, guarded, n, s);
      if !guarded {
        LoopBodyLocal(w, w', m, b, guarded, n, s);
      } else if w.holds(s.tick) {
        LoopBodyLocal(w, w', m, b, guarded, n, s.Ask());
        var first' := ExecBlock(w', m, b, true, s.Ask());
        AskLocal(w, w', s, r, r', if first'.sig.Done? then ExecLoop(w', m, b, guarded, n - 1, first'.st) else first');
      } else {
        assert Same(w, w', s.tick, r.st.tick) ==> SameAt(w, w', s.tick);
      }
    }
  }

  lemma {:induction false} RetryLocal(w: World, w': World, m: Macro, b: Block, n: int, s: State)
    ensures Local(w, w', s, ExecRetry(w, m, b, n, s), ExecRetry(w', m, b, n, s))
    decreases b, 1, if n < 0 then 0 else n, 1
  {
    if n > 0 {
      BlockLocal(w, w', m, b, true, s.Log(Attempt));
      var r := ExecBlock(w, m, b, true, s.Log(Attempt));
      if (r.sig.Done? || r.sig.Stopped?) && !r.st.ok && r.st.outcome in RETRYABLE && n != 1 {
        var back := r.st.(ok := s.ok, outcome := s.outcome).Log(RolledBack(|s.trace|));
        RetryLocal(w, w', m, b, n - 1, back);
      }
    }
  }

  // ---------------------------------------------------------------- joining worlds

  function Until<X>(f: nat -> X, t: nat, g: nat -> X): nat -> X {
    (x: nat) => if x < t then f(x) else g(x)
  }

  /** The answers of `w` before tick `t`, those of `w'` from then on. */
  function Joined(w: World, t: nat, w': World): World {
    World(Until(w.cancelled, t, w'.cancelled), Until(w.holds, t, w'.holds), Until(w.choice, t, w'.choice),
          Until(w.itemCount, t, w'.itemCount), Until(w.confirms, t, w'.confirms), Until(w.gate, t, w'.gate),
          Until(w.classified, t, w'.classified), Until(w.ledger, t, w'.ledger), Until(w.clock, t, w'.clock),
          Until(w.device, t, w'.device))
  }

  /** The token is never set. */
  ghost predicate Clear(w: World) {
    forall t: nat :: !w.cancelled(t)
  }

  lemma JoinedIsBoth(m: Macro, w: World, t: nat, w': World)
    ensures forall from: nat, to: nat :: to <= t ==> Same(w, Joined(w, t, w'), from, to)
    ensures forall from: nat, to: nat :: t <= from ==> Same(w', Joined(w, t, w'), from, to)
    ensures Clear(w) && Clear(w') ==> Clear(Joined(w, t, w'))
    ensures UsesDefaultGate(w, m) && UsesDefaultGate(w', m) ==> UsesDefaultGate(Joined(w, t, w'), m)
  {
    var j := Joined(w, t, w');
    forall x: nat
      ensures if x < t then SameAt(w, j, x) else SameAt(w', j, x)
      ensures DefaultGate(j, m, x) == if x < t then DefaultGate(w, m, x) else DefaultGate(w', m, x)
    {
    }
  }

  /** The macro's default gate in the surroundings of `w`. */
  function Governed(w: World, m: Macro): (w': World)
    ensures UsesDefaultGate(w', m)
  {
    w.(gate := (t: nat) => DefaultGate(w, m, t))
  }

  /** A world that gives every question the same answer.  Actions are classified as `risk`, and a
      grant lets the macro act at low risk. */
  function Constant(m: Macro, holds: bool, choice: string, items: nat, confirms: bool, risk: Risk,
                    device: Reply): (w: World)
    ensures Clear(w) && UsesDefaultGate(w, m)
  {
    Governed(World(_ => false, _ => holds, _ => choice, _ => items, _ => confirms, _ => A.Deny, _ => Some(risk),
                   _ => [A.Grant("g", m.name, Low, None)], _ => 0.0, _ => device), m)
  }

  /** A world in which nothing goes wrong. */
  function Calm(m: Macro): (w: World)
    ensures Clear(w) && UsesDefaultGate(w, m)
  {
    Constant(m, true, "", 0, true, Low, OkReply)
  }
}
