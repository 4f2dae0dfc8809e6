/** How many actions a document can perform, and which errors a validated document can meet. */
module MacroBounds {
  import opened MacroSyntax
  import opened MacroSemantics
  import T = MacroTheorems

  // ---------------------------------------------------------------- action bounds

  function Max(a: nat, b: nat): nat {
    if a < b then b else a
  }

  function AtLeastZero(n: int): nat {
    if n < 0 then 0 else n
  }

  /** The most actions a list can perform when variables hold at most `items` items. */
  function ListBound(steps: seq<Step>, items: nat): nat
    decreases steps, 0
  {
    if steps == [] then 0 else StepBound(steps[0], items) + ListBound(steps[1..], items)
  }

  function BlockBound(b: Block, items: nat): nat
    decreases b, 0
  {
    match b
    case Absent => 0
    case Block(steps) => ListBound(steps, items)
  }

  function CasesBound(cases: seq<Case>, items: nat): nat
    decreases cases, 0
  {
    if cases == [] then 0 else Max(ListBound(cases[0].body, items), CasesBound(cases[1..], items))
  }

  function StepBound(step: Step, items: nat): nat
    decreases step, 1
  {
    match step.kind
    case Verb(_) => 1
    case If => Max(BlockBound(step.thenSteps, items), BlockBound(step.elseSteps, items))
    case Switch => Max(CasesBound(step.cases, items), BlockBound(step.defaultSteps, items))
    case ForEach =>
      (if step.literalItems.Some? then step.literalItems.value else items) * BlockBound(step.doSteps, items)
    case Loop => AtLeastZero(MaxIterations(step)) * BlockBound(step.doSteps, items)
    case Retry => AtLeastZero(MaxAttempts(step)) * BlockBound(step.doSteps, items)
    case Try => BlockBound(step.doSteps, items) + BlockBound(step.finallySteps, items)
    case _ => 0
  }

  /** How often `run_action` has been called when a part of a run ends like `r`. */
  function Calls(r: Result): nat {
    r.st.stepsRun + if r.sig == Signal.Fault(ActionRaised) then 1 else 0
  }

  ghost predicate ItemsAtMost(w: World, items: nat) {
    forall t :: w.itemCount(t) <= items
  }

  lemma {:induction false} CaseWithinBound(cases: seq<Case>, items: nat, i: nat)
    requires i < |cases|
    ensures ListBound(cases[i].body, items) <= CasesBound(cases, items)
  {
    if i > 0 {
      CaseWithinBound(cases[1..], items, i - 1);
    }
  }

  lemma {:induction false} StepsWithinBound(w: World, m: Macro, steps: seq<Step>, items: nat, s: State)
    requires ItemsAtMost(w, items)
    ensures Calls(ExecSteps(w, m, steps, s)) <= s.stepsRun + ListBound(steps, items)
    decreases steps, 0, 0
  {
    if steps != [] && !w.cancelled(s.tick) {
      var begun := s.Ask().Log(Began(s.tick));
      StepWithinBound(w, m, steps[0], items, begun);
      StepsWithinBound(w, m, steps[1..], items, ExecStep(w, m, steps[0], begun).st);
    }
  }

  lemma {:induction false} BlockWithinBound(w: World, m: Macro, b: Block, needed: bool, items: nat, s: State)
    requires ItemsAtMost(w, items)
    ensures Calls(ExecBlock(w, m, b, needed, s)) <= s.stepsRun + BlockBound(b, items)
    decreases b, 0, 0
  {
    if b.Block? {
      StepsWithinBound(w, m, b.steps, items, s);
    }
  }

  lemma {:induction false} BranchWithinBound(w: World, m: Macro, step: Step, items: nat, s: State)
    requires ItemsAtMost(w, items) && (step.kind.If? || step.kind.Switch?)
    ensures Calls(ExecStep(w, m, step, s)) <= s.stepsRun + StepBound(step, items)
    decreases step, 1, 0
  {
    var i := CaseIndex(step.cases, w.choice(s.tick));
    if step.kind.If? {
      BlockWithinBound(w, m, step.thenSteps, true, items, s.Ask());
      BlockWithinBound(w, m, step.elseSteps, false, items, s.Ask());
    } else if i < |step.cases| {
      StepsWithinBound(w, m, step.cases[i].body, items, s.Ask());
      CaseWithinBound(step.cases, items, i);
    } else {
      BlockWithinBound(w, m, step.defaultSteps, false, items, s.Ask());
    }
  }

  lemma TimesMonotone(n: nat, n': nat, b: nat)
    requires n <= n'
    ensures n * b <= n' * b
  {
  }

  lemma {:induction false} ForEachWithinBound(w: World, m: Macro, step: Step, items: nat, s: State)
    requires ItemsAtMost(w, items) && step.kind.ForEach?
    ensures Calls(ExecStep(w, m, step, s)) <= s.stepsRun + StepBound(step, items)
    decreases step, 1, 0
  {
    var n := if step.literalItems.Some? then step.literalItems.value else w.itemCount(s.tick);
    ItemsWithinBound(w, m, step.doSteps, n, items, s.Ask());
    TimesMonotone(n, if step.literalItems.Some? then n else items, BlockBound(step.doSteps, items));
  }

  lemma {:induction false} StepWithinBound(w: World, m: Macro, step: Step, items: nat, s: State)
    requires ItemsAtMost(w, items)
    ensures Calls(ExecStep(w, m, step, s)) <= s.stepsRun + StepBound(step, items)
    decreases step, 2, 0
  {
    match step.kind {
      case If => BranchWithinBound(w, m, step, items, s);
      case Switch => BranchWithinBound(w, m, step, items, s);
      case ForEach => ForEachWithinBound(w, m, step, items, s);
      case Loop => LoopWithinBound(w, m, step.doSteps, step.whileGiven, MaxIterations(step), items, s);
      case Retry => RetryWithinBound(w, m, step.doSteps, MaxAttempts(step), items, s);
      case Try =>
        BlockWithinBound(w, m, step.doSteps, true, items, s);
        BlockWithinBound(w, m, step.finallySteps, false, items, ExecBlock(w, m, step.doSteps, true, s).st);
      case _ =>
    }
  }

  lemma OneMore(n: int, b: nat)
    requires n > 0
    ensures AtLeastZero(n) * b == b + AtLeastZero(n - 1) * b
  {
  }

  lemma {:induction false} ItemsWithinBound(w: World, m: Macro, b: Block, n: nat, items: nat, s: State)
    requires ItemsAtMost(w, items)
    ensures Calls(ExecItems(w, m, b, n, s)) <= s.stepsRun + n * BlockBound(b, items)
    decreases b, 1, n
  {
    if n > 0 {
      BlockWithinBound(w, m, b, true, items, s);
      ItemsWithinBound(w, m, b, n - 1, items, ExecBlock(w, m, b, true, s).st);
      OneMore(n, BlockBound(b, items));
    }
  }

  lemma {:induction false} LoopWithinBound(w: World, m: Macro, b: Block, guarded: bool, n: int, items: nat, s: State)
    requires ItemsAtMost(w, items)
    ensures Calls(ExecLoop(w, m, b, guarded, n, s)) <= s.stepsRun + AtLeastZero(n) * BlockBound(b, items)
    decreases b, 1, AtLeastZero(n)
  {
    if n > 0 {
      var s0 := if guarded then s.Ask() else s;
      BlockWithinBound(w, m, b, true, items, s0);
      LoopWithinBound(w, m, b, guarded, n - 1, items, ExecBlock(w, m, b, true, s0).st);
      OneMore(n, BlockBound(b, items));
      assert 0 <= AtLeastZero(n - 1) * BlockBound(b, items);
    }
  }

  lemma {:induction false} RetryWithinBound(w: World, m: Macro, b: Block, n: int, items: nat, s: State)
    requires ItemsAtMost(w, items)
    ensures Calls(ExecRetry(w, m, b, n, s)) <= s.stepsRun + AtLeastZero(n) * BlockBound(b, items)
    decreases b, 1, AtLeastZero(n)
  {
    if n > 0 {
      BlockWithinBound(w, m, b, true, items, s.Log(Attempt));
      var r := ExecBlock(w, m, b, true, s.Log(Attempt));
      RetryWithinBound(w, m, b, n - 1, items, r.st.(ok := s.ok, outcome := s.outcome).Log(RolledBack(|s.trace|)));
      OneMore(n, BlockBound(b, items));
      assert 0 <= AtLeastZero(n - 1) * BlockBound(b, items);
    }
  }

  /** No run of a document performs more actions, rolled-back ones included, than the bound
      computed from its tree. */
  lemma RunWithinBound(w: World, m: Macro, actions: seq<Step>, items: nat)
    requires ItemsAtMost(w, items)
    ensures T.Actions(Run(w, m, actions).st.trace) <= ListBound(actions, items)
  {
    StepsWithinBound(w, m, actions, items, INITIAL);
    T.RunAccounting(w, m, actions);
  }

  // ---------------------------------------------------------------- errors of validated documents

  /** Every `set` step, at any depth, names its variable, and every verb is mapped and has the keys
      its mapping reads. */
  predicate Complete(s: Step)
    decreases s, 1
  {
    && (s.kind.SetVar? ==> VarKey in s.keys)
    && (s.kind.Verb? ==> MappingFault(s).None?)
    && BlockComplete(s.thenSteps) && BlockComplete(s.elseSteps) && BlockComplete(s.doSteps)
    && BlockComplete(s.finallySteps) && BlockComplete(s.defaultSteps)
    && forall c | c in s.cases :: AllComplete(c.body)
  }

  predicate BlockComplete(b: Block)
    decreases b, 0
  {
    b.Block? ==> AllComplete(b.steps)
  }

  predicate AllComplete(steps: seq<Step>)
    decreases steps, 0
  {
    forall s | s in steps :: Complete(s)
  }

  /** A sound step never meets an unknown type or a missing required key.  What is left are the
      exceptions of `run_action` itself and, unless `strict`, what the validator does not ask for:
      a `set` step without its `var`, a verb that is not mapped or lacks a key. */
  predicate Tolerable(strict: bool, sig: Signal) {
    sig.Fault? ==>
      || sig.fault.ActionRaised?
      || (!strict && (sig.fault.MissingVar? || sig.fault.UnmappedVerb? || sig.fault.MissingVerbKey?))
  }

  lemma MappedActionRaisesAlone(w: World, m: Macro, step: Step, s: State)
    requires step.kind.Verb?
    ensures Tolerable(MappingFault(step).None?, ExecAction(w, m, step, s).sig)
  {
  }

  lemma {:induction false} SoundSteps(w: World, m: Macro, strict: bool, steps: seq<Step>, s: State)
    requires AllSound(steps, true) && (strict ==> AllComplete(steps))
    ensures Tolerable(strict, ExecSteps(w, m, steps, s).sig)
    decreases steps, 0, 0
  {
    if steps != [] && !w.cancelled(s.tick) {
      assert steps[0] in steps;
      var begun := s.Ask().Log(Began(s.tick));
      SoundStep(w, m, strict, steps[0], begun);
      SoundSteps(w, m, strict, steps[1..], ExecStep(w, m, steps[0], begun).st);
    }
  }

  lemma {:induction false} SoundBlock(w: World, m: Macro, strict: bool, b: Block, needed: bool, s: State)
    requires b.Block? ==> AllSound(b.steps, true) && (strict ==> AllComplete(b.steps))
    requires needed ==> b.Block?
    ensures Tolerable(strict, ExecBlock(w, m, b, needed, s).sig)
    decreases b, 0, 0
  {
    if b.Block? {
      SoundSteps(w, m, strict, b.steps, s);
    }
  }

  lemma {:induction false} SoundBranch(w: World, m: Macro, strict: bool, step: Step, s: State)
    requires Sound(step, true) && (strict ==> Complete(step)) && (step.kind.If? || step.kind.Switch?)
    ensures Tolerable(strict, ExecStep(w, m, step, s).sig)
    decreases step, 1, 0
  {
    var i := CaseIndex(step.cases, w.choice(s.tick));
    if step.kind.If? {
      SoundBlock(w, m, strict, step.thenSteps, true, s.Ask());
      SoundBlock(w, m, strict, step.elseSteps, false, s.Ask());
    } else if i < |step.cases| {
      assert step.cases[i] in step.cases;
      SoundSteps(w, m, strict, step.cases[i].body, s.Ask());
    } else {
      SoundBlock(w, m, strict, step.defaultSteps, false, s.Ask());
    }
  }

  lemma {:induction false} SoundStep(w: World, m: Macro, strict: bool, step: Step, s: State)
    requires Sound(step, true) && (strict ==> Complete(step))
    ensures Tolerable(strict, ExecStep(w, m, step, s).sig)
    decreases step, 2, 0
  {
    match step.kind {
      case Verb(_) => MappedActionRaisesAlone(w, m, step, s);
      case If => SoundBranch(w, m, strict, step, s);
      case Switch => SoundBranch(w, m, strict, step, s);
      case ForEach =>
        var n := if step.literalItems.Some? then step.literalItems.value else w.itemCount(s.tick);
        SoundItems(w, m, strict, step.doSteps, n, s.Ask());
      case Loop => SoundLoop(w, m, strict, step.doSteps, step.whileGiven, MaxIterations(step), s);
      case Retry => SoundRetry(w, m, strict, step.doSteps, MaxAttempts(step), s);
      case Try =>
        SoundBlock(w, m, strict, step.doSteps, true, s);
        SoundBlock(w, m, strict, step.finallySteps, false, ExecBlock(w, m, step.doSteps, true, s).st);
      case _ =>
    }
  }

  lemma {:induction false} SoundItems(w: World, m: Macro, strict: bool, b: Block, n: nat, s: State)
    requires b.Block? && AllSound(b.steps, true) && (strict ==> AllComplete(b.steps))
    ensures Tolerable(strict, ExecItems(w, m, b, n, s).sig)
    decreases b, 1, n
  {
    if n > 0 {
      SoundBlock(w, m, strict, b, true, s);
      SoundItems(w, m, strict, b, n - 1, ExecBlock(w, m, b, true, s).st);
    }
  }

  lemma {:induction false} SoundLoop(w: World, m: Macro, strict: bool, b: Block, guarded: bool, n: int, s: State)
    requires b.Block? && AllSound(b.steps, true) && (strict ==> AllComplete(b.steps))
    ensures Tolerable(strict, ExecLoop(w, m, b, guarded, n, s).sig)
    decreases b, 1, AtLeastZero(n)
  {
    if n > 0 {
      var s0 := if guarded then s.Ask() else s;
      SoundBlock(w, m, strict, b, true, s0);
      SoundLoop(w, m, strict, b, guarded, n - 1, ExecBlock(w, m, b, true, s0).st);
    }
  }

  lemma {:induction false} SoundRetry(w: World, m: Macro, strict: bool, b: Block, n: int, s: State)
    requires b.Block? && AllSound(b.steps, true) && (strict ==> AllComplete(b.steps))
    ensures Tolerable(strict, ExecRetry(w, m, b, n, s).sig)
    decreases b, 1, AtLeastZero(n)
  {
    if n > 0 {
      SoundBlock(w, m, strict, b, true, s.Log(Attempt));
      var r := ExecBlock(w, m, b, true, s.Log(Attempt));
      SoundRetry(w, m, strict, b, n - 1, r.st.(ok := s.ok, outcome := s.outcome).Log(RolledBack(|s.trace|)));
    }
  }

  // ---------------------------------------------------------------- `finally` is not validated

  /** Every `finally` list of a `try`, at any depth, validates as a list of its own. */
  predicate FinallyValid(s: Step)
    decreases s, 1
  {
    && (s.kind.Try? && s.finallySteps.Block? ==>
          ListErrors(s.finallySteps.steps) == [] && AllFinallyValid(s.finallySteps.steps))
    && (s.thenSteps.Block? ==> AllFinallyValid(s.thenSteps.steps))
    && (s.elseSteps.Block? ==> AllFinallyValid(s.elseSteps.steps))
    && (s.doSteps.Block? ==> AllFinallyValid(s.doSteps.steps))
    && (s.kind.Switch? ==>
          && (forall c | c in s.cases :: AllFinallyValid(c.body))
          && (s.defaultSteps.Block? ==> AllFinallyValid(s.defaultSteps.steps)))
  }

  predicate AllFinallyValid(steps: seq<Step>)
    decreases steps, 0
  {
    forall s | s in steps :: FinallyValid(s)
  }

  lemma {:induction false} DeepenList(steps: seq<Step>)
    requires AllSound(steps, false) && AllFinallyValid(steps)
    ensures AllSound(steps, true)
    decreases steps, 0
  {
    forall s | s in steps
      ensures Sound(s, true)
    {
      Deepen(s);
    }
  }

  lemma {:induction false} Deepen(s: Step)
    requires Sound(s, false) && FinallyValid(s)
    ensures Sound(s, true)
    decreases s, 1
  {
    if s.thenSteps.Block? { DeepenList(s.thenSteps.steps); }
    if s.elseSteps.Block? { DeepenList(s.elseSteps.steps); }
    if s.doSteps.Block? { DeepenList(s.doSteps.steps); }
    if s.kind.Try? && s.finallySteps.Block? {
      ValidationExact(s.finallySteps.steps);
      DeepenList(s.finallySteps.steps);
    }
    if s.kind.Switch? {
      forall c | c in s.cases
        ensures AllSound(c.body, true)
      {
        DeepenList(c.body);
      }
      if s.defaultSteps.Block? { DeepenList(s.defaultSteps.steps); }
    }
  }

  lemma {:induction false} DeepListHasValidFinally(steps: seq<Step>)
    requires AllSound(steps, true)
    ensures AllSound(steps, false) && AllFinallyValid(steps)
    decreases steps, 0
  {
    forall s | s in steps
      ensures Sound(s, false) && FinallyValid(s)
    {
      DeepStepHasValidFinally(s);
    }
  }

  lemma {:induction false} DeepStepHasValidFinally(s: Step)
    requires Sound(s, true)
    ensures Sound(s, false) && FinallyValid(s)
    decreases s, 1
  {
    if s.thenSteps.Block? { DeepListHasValidFinally(s.thenSteps.steps); }
    if s.elseSteps.Block? { DeepListHasValidFinally(s.elseSteps.steps); }
    if s.doSteps.Block? { DeepListHasValidFinally(s.doSteps.steps); }
    if s.kind.Try? && s.finallySteps.Block? {
      DeepListHasValidFinally(s.finallySteps.steps);
      ValidationExact(s.finallySteps.steps);
    }
    if s.kind.Switch? {
      forall c | c in s.cases
        ensures AllSound(c.body, false) && AllFinallyValid(c.body)
      {
        DeepListHasValidFinally(c.body);
      }
      if s.defaultSteps.Block? { DeepListHasValidFinally(s.defaultSteps.steps); }
    }
  }

  /** A document is sound everywhere, `finally` lists included, exactly when it validates and every
      `finally` list in it would validate too. */
  lemma DeepValidationExact(steps: seq<Step>)
    ensures AllSound(steps, true) <==> ListErrors(steps) == [] && AllFinallyValid(steps)
  {
    ValidationExact(steps);
    if AllSound(steps, true) {
      DeepListHasValidFinally(steps);
    }
    if ListErrors(steps) == [] && AllFinallyValid(steps) {
      DeepenList(steps);
    }
  }

  /** If a document validates, and so does every `finally` list in it, then no run of it, in any
      world, raises the unsupported-step error or misses a required key. */
  lemma ValidatedDocumentsAreSupported(w: World, m: Macro, actions: seq<Step>)
    requires ListErrors(actions) == [] && AllFinallyValid(actions)
    ensures Tolerable(false, Run(w, m, actions).sig)
  {
    DeepValidationExact(actions);
    SoundSteps(w, m, false, actions, INITIAL);
  }

  /** If besides every `set` step names its variable and every verb is mapped with its keys, the one
      exception left is one that `run_action` raises. */
  lemma CompleteDocumentsNeverFault(w: World, m: Macro, actions: seq<Step>)
    requires ListErrors(actions) == [] && AllFinallyValid(actions) && AllComplete(actions)
    ensures Run(w, m, actions).sig.Fault? ==> Run(w, m, actions).sig.fault.ActionRaised?
  {
    DeepValidationExact(actions);
    SoundSteps(w, m, true, actions, INITIAL);
  }

  lemma LeafValidates(kind: Kind)
    requires kind.SetVar? || kind.Verb?
    ensures ListErrors([Leaf(kind)]) == [] && AllFinallyValid([Leaf(kind)])
  {
    assert StepErrors(Leaf(kind)) == [];
    assert ListErrors([Leaf(kind)][1..]) == [];
  }

  /** Validation does not ask for the variable: this document validates, has no `finally` list, and
      raises the lookup error in any world whose token is clear at the start. */
  lemma SetEscapesValidation(w: World, m: Macro)
    requires !w.cancelled(0)
    ensures var doc := [Leaf(SetVar)];
            && ListErrors(doc) == [] && AllFinallyValid(doc)
            && Run(w, m, doc).sig == Signal.Fault(MissingVar)
  {
    LeafValidates(SetVar);
    T.OneStepList(w, m, Leaf(SetVar), INITIAL);
  }

  /** Nor does it ask whether a verb is mapped, or for the keys that the mapping reads: a document of
      one verb without any key validates, and fails for seven of the verbs as not mapped and for two
      by a lookup error, wherever the gate lets it through. */
  lemma VerbEscapesValidation(w: World, m: Macro, verb: PhoneVerb)
    requires !w.cancelled(0) && w.gate(1).Allow?
    ensures var doc := [Leaf(Verb(verb))];
            && ListErrors(doc) == [] && AllFinallyValid(doc)
            && (verb.Launch? || verb.PressKey? <==> Run(w, m, doc).sig == Signal.Fault(MissingVerbKey))
            && (!verb.Tap? && !verb.TypeText? && !verb.SetText? && !verb.Swipe? && !verb.Launch? && !verb.PressKey?
                <==> Run(w, m, doc).sig == Signal.Fault(UnmappedVerb))
  {
    LeafValidates(Verb(verb));
    T.OneStepList(w, m, Leaf(Verb(verb)), INITIAL);
    assert Leaf(Verb(verb)).keys == {};
  }

  /** A `finally` list of a step other than `try` is looked at by nothing, and is no fault. */
  lemma IdleFinallyIsHarmless(w: World, m: Macro)
    ensures var doc := [Leaf(Wait).(finallySteps := Block([Leaf(Unknown("nap"))]))];
            && ListErrors(doc) == [] && AllFinallyValid(doc)
            && !Run(w, m, doc).sig.Fault?
  {
    var step := Leaf(Wait).(finallySteps := Block([Leaf(Unknown("nap"))]));
    assert StepErrors(step) == [];
    assert ListErrors([step][1..]) == [];
    var begun := INITIAL.Ask().Log(Began(0));
    assert ExecStep(w, m, step, begun).sig.Done?;
    assert ExecSteps(w, m, [step][1..], begun).sig.Done?;
  }

  /** Validation alone is not enough: this document validates and raises the error in any world
      whose token is clear, because its `finally` list is never looked at. */
  lemma FinallyEscapesValidation(w: World, m: Macro)
    requires forall t: nat :: !w.cancelled(t)
    ensures var doc := [Leaf(Try).(doSteps := Block([]), finallySteps := Block([Leaf(Unknown("nap"))]))];
            && ListErrors(doc) == []
            && Run(w, m, doc).sig == Signal.Fault(UnsupportedStep)
  {
    var inner := [Leaf(Unknown("nap"))];
    var step := Leaf(Try).(doSteps := Block([]), finallySteps := Block(inner));
    var doc := [step];
    assert MissingErrors(Try, RequiredSubkeys(step)) == MissingErrors(Try, [("do", true)][1..]) == [];
    assert BlockErrors(Block([])) == [];
    assert StepErrors(step) == [];
    assert ListErrors(doc[1..]) == [];
    var begun := INITIAL.Ask().Log(Began(0));
    assert ExecBlock(w, m, step.doSteps, true, begun) == Result(Done, begun);
    assert ExecSteps(w, m, inner, begun).sig == Signal.Fault(UnsupportedStep);
    assert ExecStep(w, m, step, begun).sig == Signal.Fault(UnsupportedStep);
  }
}
