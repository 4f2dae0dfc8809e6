/** Every ending the abstract interpreter foresees is brought about by some world; hence, decided on
    the document alone, which errors a run can raise and whether it can go on after a `stop`. */
module MacroEndings {
  import opened Common
  import opened MacroSyntax
  import opened MacroSemantics
  import opened MacroOutcomes
  import opened MacroLocality
  import T = MacroTheorems
  import A = Autonomy

  // ---------------------------------------------------------------- every foreseen ending happens

  /** A world under the macro's default gate, whose token is never set unless the run is to end by
      cancellation. */
  ghost predicate Fits(w: World, m: Macro, o: Out) {
    UsesDefaultGate(w, m) && (o.sig.Cancelled? || Clear(w))
  }

  /** A standing grant of low risk covers low risk, and no other. */
  lemma LowGrantCovers(m: Macro, risk: Risk)
    ensures A.Covered([A.Grant("g", m.name, Low, None)], 0.0, m.name, risk) <==> risk.Low?
  {
    var rows := [A.Grant("g", m.name, Low, None)];
    assert A.Standing(rows, 0);
    assert risk.Low? ==> A.CoversRow(rows[0], 0.0, m.name, risk);
  }

  /** At low risk the default gate of a macro that is not shut lets everything through; at critical
      risk it lets nothing through. */
  lemma ConstantGate(m: Macro, holds: bool, choice: string, items: nat, confirms: bool, risk: Risk, device: Reply,
                     t: nat)
    ensures var w := Constant(m, holds, choice, items, confirms, risk, device);
            (risk.Low? && !Shut(m) ==> w.gate(t).Allow?) && (risk.Critical? ==> w.gate(t).Deny?)
  {
    LowGrantCovers(m, risk);
    LowGrantCovers(m, Critical);
    A.DecideExact(m.name, m.requireConfirm, risk, [A.Grant("g", m.name, Low, None)], 0.0);
  }

  lemma RealizeAction(m: Macro, step: Step, s: State, o: Out) returns (w: World)
    requires step.kind.Verb? && CanAct(m, step, ModeOf(s), o)
    ensures Fits(w, m, o) && OutOf(ExecAction(w, m, step, s)) == o
  {
    if o == Out(Stopped, ModeOf(s).(health := Hard)) {
      w := Constant(m, true, "", 0, true, Critical, OkReply);
      ConstantGate(m, true, "", 0, true, Critical, OkReply, s.tick);
      RefusalIsHard();
      FailMode(s.Ask(), "guarded_action");
    } else {
      var reply := if o.sig.Fault? then NoReply else if o.sig.Stopped? then ErrorReply("busy") else OkReply;
      w := Constant(m, true, "", 0, true, Low, reply);
      ConstantGate(m, true, "", 0, true, Low, reply, s.tick);
      RealizePerform(w, step, s.tick, s.Ask(), o);
    }
  }

  lemma RealizePerform(w: World, step: Step, gateTick: nat, s: State, o: Out)
    requires step.kind.Verb? && IsActionEnding(step, ModeOf(s), o) && o != Out(Stopped, ModeOf(s).(health := Hard))
    requires w.device(s.tick)
             == if o.sig.Fault? then NoReply else if o.sig.Stopped? then ErrorReply("busy") else OkReply
    ensures OutOf(Perform(w, step, gateTick, s)) == o
  {
    if MappingFault(step).None? {
      ActModes(w, gateTick, s);
    }
  }

  /** A token found set before the first step. */
  lemma RealizeRefusal(m: Macro, steps: seq<Step>, s: State) returns (w: World)
    requires steps != []
    ensures UsesDefaultGate(w, m) && OutOf(ExecSteps(w, m, steps, s)) == Out(Cancelled, ModeOf(s))
  {
    LogMode(s.Ask(), Refused(s.tick));
    w := Calm(m).(cancelled := _ => true);
  }

  lemma {:induction false} RealizeSteps(m: Macro, steps: seq<Step>, s: State, o: Out) returns (w: World)
    requires CanSteps(m, steps, ModeOf(s), o)
    ensures Fits(w, m, o) && OutOf(ExecSteps(w, m, steps, s)) == o
    decreases steps, 0, 1
  {
    if steps == [] {
      w := Calm(m);
    } else if o == Out(Cancelled, ModeOf(s)) {
      w := RealizeRefusal(m, steps, s);
    } else if !o.sig.Done? && CanStep(m, steps[0], Begun(ModeOf(s)), o) {
      w := RealizeBreak(m, steps, s, o);
    } else {
      var h: Health, t: Halt :|
        CanStep(m, steps[0], Begun(ModeOf(s)), Out(Done, Mode(h, t))) && CanSteps(m, steps[1..], Mode(h, t), o);
      w := RealizeFirst(m, steps, s, Mode(h, t), o);
    }
  }

  /** A first step by which the list ends. */
  lemma {:induction false} RealizeBreak(m: Macro, steps: seq<Step>, s: State, o: Out) returns (w: World)
    requires steps != [] && !o.sig.Done? && CanStep(m, steps[0], Begun(ModeOf(s)), o)
    ensures Fits(w, m, o) && OutOf(ExecSteps(w, m, steps, s)) == o
    decreases steps, 0, 0
  {
    var begun := s.Ask().Log(Began(s.tick));
    LogMode(s.Ask(), Began(s.tick));
    var calm := Calm(m);
    var w1 := RealizeStep(m, steps[0], begun, o);
    w := Joined(calm, begun.tick, w1);
    JoinedIsBoth(m, calm, begun.tick, w1);
    StepLocal(w1, w, m, steps[0], begun);
    assert SameAt(calm, w, s.tick);
  }

  /** A first step that ends normally, and the steps after it. */
  lemma {:induction false} RealizeFirst(m: Macro, steps: seq<Step>, s: State, c: Mode, o: Out) returns (w: World)
    requires steps != [] && CanStep(m, steps[0], Begun(ModeOf(s)), Out(Done, c)) && CanSteps(m, steps[1..], c, o)
    ensures Fits(w, m, o) && OutOf(ExecSteps(w, m, steps, s)) == o
    decreases steps, 0, 0
  {
    var begun := s.Ask().Log(Began(s.tick));
    LogMode(s.Ask(), Began(s.tick));
    var w1 := RealizeStep(m, steps[0], begun, Out(Done, c));
    var r := ExecStep(w1, m, steps[0], begun);
    var w2 := RealizeSteps(m, steps[1..], r.st, o);
    w := Joined(w1, r.st.tick, w2);
    JoinedIsBoth(m, w1, r.st.tick, w2);
    JoinFirst(w1, w2, m, steps, s, r);
  }

  lemma JoinFirst(w1: World, w2: World, m: Macro, steps: seq<Step>, s: State, r: Result)
    requires steps != [] && !w1.cancelled(s.tick) && r.sig.Done?
    requires ExecStep(w1, m, steps[0], s.Ask().Log(Began(s.tick))) == r
    ensures ExecSteps(Joined(w1, r.st.tick, w2), m, steps, s) == ExecSteps(w2, m, steps[1..], r.st)
  {
    var w, begun := Joined(w1, r.st.tick, w2), s.Ask().Log(Began(s.tick));
    JoinedIsBoth(m, w1, r.st.tick, w2);
    StepLocal(w1, w, m, steps[0], begun);
    StepsLocal(w2, w, m, steps[1..], r.st);
    assert SameAt(w1, w, s.tick);
    FirstThenRest(w, m, steps, s, r);
  }

  lemma FirstThenRest(w: World, m: Macro, steps: seq<Step>, s: State, r: Result)
    requires steps != [] && !w.cancelled(s.tick) && r.sig.Done?
    requires ExecStep(w, m, steps[0], s.Ask().Log(Began(s.tick))) == r
    ensures ExecSteps(w, m, steps, s) == ExecSteps(w, m, steps[1..], r.st)
  {
  }

  lemma {:induction false} RealizeBlock(m: Macro, b: Block, needed: bool, s: State, o: Out) returns (w: World)
    requires CanBlock(m, b, needed, ModeOf(s), o)
    ensures Fits(w, m, o) && OutOf(ExecBlock(w, m, b, needed, s)) == o
    decreases b, 0, 0
  {
    if b.Block? {
      w := RealizeSteps(m, b.steps, s, o);
    } else {
      w := Calm(m);
    }
  }

  /** The list ends in mode `c`, normally or by `_Stop`. */
  lemma {:induction false} RealizeEnd(m: Macro, b: Block, s: State, c: Mode) returns (w: World)
    requires CanEnd(m, b, ModeOf(s), c)
    ensures var r := ExecBlock(w, m, b, true, s);
            UsesDefaultGate(w, m) && Clear(w) && (r.sig.Done? || r.sig.Stopped?) && ModeOf(r.st) == c
    decreases b, 0, 1
  {
    if CanBlock(m, b, true, ModeOf(s), Out(Done, c)) {
      w := RealizeBlock(m, b, true, s, Out(Done, c));
    } else {
      w := RealizeBlock(m, b, true, s, Out(Stopped, c));
    }
  }

  lemma {:induction false} RealizeIf(m: Macro, step: Step, s: State, o: Out) returns (w: World)
    requires step.kind.If? && ConditionKey in step.keys && CanStep(m, step, ModeOf(s), o)
    ensures Fits(w, m, o) && OutOf(ExecStep(w, m, step, s)) == o
    decreases step, 1, 0
  {
    assert ModeOf(s.Ask()) == ModeOf(s);
    var holds := CanBlock(m, step.thenSteps, true, ModeOf(s), o);
    var b := if holds then step.thenSteps else step.elseSteps;
    var w1 := RealizeBlock(m, b, holds, s.Ask(), o);
    var answer := Constant(m, holds, "", 0, true, Low, OkReply);
    w := Joined(answer, s.tick + 1, w1);
    JoinedIsBoth(m, answer, s.tick + 1, w1);
    BlockLocal(w1, w, m, b, holds, s.Ask());
  }

  /** A string that is no case's key. */
  function OtherKey(cases: seq<Case>): string {
    if cases == [] then "x" else cases[0].key + OtherKey(cases[1..])
  }

  lemma {:induction false} OtherKeyIsLonger(cases: seq<Case>)
    ensures |OtherKey(cases)| > 0 && forall i | 0 <= i < |cases| :: |cases[i].key| < |OtherKey(cases)|
  {
    if cases != [] {
      OtherKeyIsLonger(cases[1..]);
      assert forall i | 1 <= i < |cases| :: cases[i] == cases[1..][i - 1];
    }
  }

  lemma {:induction false} RealizeDefault(m: Macro, step: Step, s: State, o: Out) returns (w: World)
    requires step.kind.Switch? && OnKey in step.keys && CanBlock(m, step.defaultSteps, false, ModeOf(s), o)
    ensures Fits(w, m, o) && OutOf(ExecStep(w, m, step, s)) == o
    decreases step, 1, 0
  {
    assert ModeOf(s.Ask()) == ModeOf(s);
    var key := OtherKey(step.cases);
    OtherKeyIsLonger(step.cases);
    assert CaseIndex(step.cases, key) == |step.cases|;
    var w1 := RealizeBlock(m, step.defaultSteps, false, s.Ask(), o);
    var answer := Constant(m, true, key, 0, true, Low, OkReply);
    w := Joined(answer, s.tick + 1, w1);
    JoinedIsBoth(m, answer, s.tick + 1, w1);
    JoinDefault(answer, w1, m, step, s);
  }

  lemma JoinDefault(answer: World, w1: World, m: Macro, step: Step, s: State)
    requires step.kind.Switch? && OnKey in step.keys
    requires CaseIndex(step.cases, answer.choice(s.tick)) == |step.cases|
    ensures ExecStep(Joined(answer, s.tick + 1, w1), m, step, s)
            == ExecBlock(w1, m, step.defaultSteps, false, s.Ask())
  {
    var w := Joined(answer, s.tick + 1, w1);
    JoinedIsBoth(m, answer, s.tick + 1, w1);
    BlockLocal(w1, w, m, step.defaultSteps, false, s.Ask());
  }

  lemma SwitchTakes(w: World, m: Macro, step: Step, i: nat, s: State)
    requires step.kind.Switch? && OnKey in step.keys && i < |step.cases|
    requires CaseIndex(step.cases, w.choice(s.tick)) == i
    ensures ExecStep(w, m, step, s) == ExecSteps(w, m, step.cases[i].body, s.Ask())
  {
  }

  lemma {:induction false} RealizeCase(m: Macro, step: Step, i: nat, s: State, o: Out) returns (w: World)
    requires step.kind.Switch? && OnKey in step.keys && i < |step.cases|
    requires CaseIndex(step.cases, step.cases[i].key) == i && CanSteps(m, step.cases[i].body, ModeOf(s), o)
    ensures Fits(w, m, o) && OutOf(ExecStep(w, m, step, s)) == o
    decreases step, 1, 0
  {
    assert ModeOf(s.Ask()) == ModeOf(s);
    var w1 := RealizeSteps(m, step.cases[i].body, s.Ask(), o);
    var answer := Constant(m, true, step.cases[i].key, 0, true, Low, OkReply);
    w := Joined(answer, s.tick + 1, w1);
    JoinedIsBoth(m, answer, s.tick + 1, w1);
    var body := step.cases[i].body;
    StepsLocal(w1, w, m, body, s.Ask());
    assert SameAt(answer, w, s.tick);
    SwitchTakes(w, m, step, i, s);
  }

  lemma {:induction false} RealizeSwitch(m: Macro, step: Step, s: State, o: Out) returns (w: World)
    requires step.kind.Switch? && OnKey in step.keys && CanStep(m, step, ModeOf(s), o)
    ensures Fits(w, m, o) && OutOf(ExecStep(w, m, step, s)) == o
    decreases step, 1, 1
  {
    if CanBlock(m, step.defaultSteps, false, ModeOf(s), o) {
      w := RealizeDefault(m, step, s, o);
    } else {
      var i :| 0 <= i < |step.cases| && CaseIndex(step.cases, step.cases[i].key) == i
               && CanSteps(m, step.cases[i].body, ModeOf(s), o);
      w := RealizeCase(m, step, i, s, o);
    }
  }

  lemma {:induction false} RealizeForEach(m: Macro, step: Step, s: State, o: Out) returns (w: World)
    requires step.kind.ForEach? && InKey in step.keys && CanStep(m, step, ModeOf(s), o)
    ensures Fits(w, m, o) && OutOf(ExecStep(w, m, step, s)) == o
    decreases step, 1, 1
  {
    assert ModeOf(s.Ask()) == ModeOf(s);
    var n: nat;
    if step.literalItems.Some? {
      n := step.literalItems.value;
    } else {
      n :| 0 <= n <= SAMPLES && CanCount(m, step, n, ModeOf(s), o);
    }
    var answer := Constant(m, true, "", n, true, Low, OkReply);
    if n > 0 && AsKey !in step.keys {
      w := answer;
    } else {
      var w1 := RealizeItems(m, step.doSteps, n, s.Ask(), o);
      w := Joined(answer, s.tick + 1, w1);
      JoinedIsBoth(m, answer, s.tick + 1, w1);
      JoinItems(answer, w1, m, step, n, s);
    }
  }

  lemma JoinItems(answer: World, w1: World, m: Macro, step: Step, n: nat, s: State)
    requires step.kind.ForEach? && InKey in step.keys && (n > 0 ==> AsKey in step.keys)
    requires n == if step.literalItems.Some? then step.literalItems.value else answer.itemCount(s.tick)
    ensures ExecStep(Joined(answer, s.tick + 1, w1), m, step, s) == ExecItems(w1, m, step.doSteps, n, s.Ask())
  {
    var w := Joined(answer, s.tick + 1, w1);
    JoinedIsBoth(m, answer, s.tick + 1, w1);
    ItemsLocal(w1, w, m, step.doSteps, n, s.Ask());
  }

  lemma {:induction false} RealizeTry(m: Macro, step: Step, s: State, o: Out) returns (w: World)
    requires step.kind.Try? && CanStep(m, step, ModeOf(s), o)
    ensures Fits(w, m, o) && OutOf(ExecStep(w, m, step, s)) == o
    decreases step, 1, 0
  {
    if Escapes(o.sig) && CanBlock(m, step.doSteps, true, ModeOf(s), o) {
      w := RealizeBlock(m, step.doSteps, true, s, o);
      return;
    }
    var h: Health, t: Halt :|
      CanEnd(m, step.doSteps, ModeOf(s), Mode(h, t)) && CanBlock(m, step.finallySteps, false, Mode(h, t), o);
    var w1 := RealizeEnd(m, step.doSteps, s, Mode(h, t));
    var r := ExecBlock(w1, m, step.doSteps, true, s);
    var w2 := RealizeBlock(m, step.finallySteps, false, r.st, o);
    w := Joined(w1, r.st.tick, w2);
    JoinedIsBoth(m, w1, r.st.tick, w2);
    BlockLocal(w1, w, m, step.doSteps, true, s);
    BlockLocal(w2, w, m, step.finallySteps, false, r.st);
  }

  lemma {:induction false} RealizeStep(m: Macro, step: Step, s: State, o: Out) returns (w: World)
    requires CanStep(m, step, ModeOf(s), o)
    ensures Fits(w, m, o) && OutOf(ExecStep(w, m, step, s)) == o
    decreases step, 2, 0
  {
    w := Constant(m, true, "", 0, o.sig.Done?, Low, OkReply);
    match step.kind {
      case Stop => LogMode(s, Halted);
      case Verb(_) => w := RealizeAction(m, step, s, o);
      case Confirm =>
        RefusalIsHard();
        FailMode(s.Ask(), "confirmation_required");
      case If => if ConditionKey in step.keys { w := RealizeIf(m, step, s, o); }
      case Switch => if OnKey in step.keys { w := RealizeSwitch(m, step, s, o); }
      case ForEach => if InKey in step.keys { w := RealizeForEach(m, step, s, o); }
      case Loop => w := RealizeLoop(m, step.doSteps, step.whileGiven, MaxIterations(step), s, o);
      case Retry => w := RealizeRetry(m, step.doSteps, MaxAttempts(step), s, o);
      case Try => w := RealizeTry(m, step, s, o);
      case _ =>
    }
  }

  lemma {:induction false} RealizeItems(m: Macro, b: Block, n: nat, s: State, o: Out) returns (w: World)
    requires CanItems(m, b, n, ModeOf(s), o)
    ensures Fits(w, m, o) && OutOf(ExecItems(w, m, b, n, s)) == o
    decreases b, 1, n
  {
    if n == 0 {
      return Calm(m);
    }
    if !o.sig.Done? && CanBlock(m, b, true, ModeOf(s), o) {
      w := RealizeBlock(m, b, true, s, o);
      return;
    }
    var h: Health, t: Halt :|
      CanBlock(m, b, true, ModeOf(s), Out(Done, Mode(h, t))) && CanItems(m, b, n - 1, Mode(h, t), o);
    var w1 := RealizeBlock(m, b, true, s, Out(Done, Mode(h, t)));
    var r := ExecBlock(w1, m, b, true, s);
    var w2 := RealizeItems(m, b, n - 1, r.st, o);
    w := Joined(w1, r.st.tick, w2);
    JoinedIsBoth(m, w1, r.st.tick, w2);
    BlockLocal(w1, w, m, b, true, s);
    ItemsLocal(w2, w, m, b, n - 1, r.st);
  }

  /** A round of a loop whose condition, if it has one, has been asked and holds. */
  lemma {:induction false} RealizeRound(m: Macro, b: Block, guarded: bool, n: int, s0: State, o: Out) returns (w: World)
    requires n > 0
    requires || (!o.sig.Done? && CanBlock(m, b, true, ModeOf(s0), o))
             || exists h: Health, t: Halt ::
                  && CanBlock(m, b, true, ModeOf(s0), Out(Done, Mode(h, t)))
                  && CanLoop(m, b, guarded, n - 1, Mode(h, t), o)
    ensures var first := ExecBlock(w, m, b, true, s0);
            && Fits(w, m, o)
            && OutOf(if first.sig.Done? then ExecLoop(w, m, b, guarded, n - 1, first.st) else first) == o
    decreases b, 1, n, 0
  {
    if !o.sig.Done? && CanBlock(m, b, true, ModeOf(s0), o) {
      w := RealizeBlock(m, b, true, s0, o);
      return;
    }
    var h: Health, t: Halt :|
      CanBlock(m, b, true, ModeOf(s0), Out(Done, Mode(h, t))) && CanLoop(m, b, guarded, n - 1, Mode(h, t), o);
    var w1 := RealizeBlock(m, b, true, s0, Out(Done, Mode(h, t)));
    var r := ExecBlock(w1, m, b, true, s0);
    var w2 := RealizeLoop(m, b, guarded, n - 1, r.st, o);
    w := Joined(w1, r.st.tick, w2);
    JoinedIsBoth(m, w1, r.st.tick, w2);
    BlockLocal(w1, w, m, b, true, s0);
    LoopLocal(w2, w, m, b, guarded, n - 1, r.st);
  }

  lemma {:induction false} RealizeLoop(m: Macro, b: Block, guarded: bool, n: int, s: State, o: Out) returns (w: World)
    requires CanLoop(m, b, guarded, n, ModeOf(s), o)
    ensures Fits(w, m, o) && OutOf(ExecLoop(w, m, b, guarded, n, s)) == o
    decreases b, 1, if n < 0 then 0 else n, 1
  {
    assert ModeOf(s.Ask()) == ModeOf(s);
    if n <= 0 || (guarded && o == Out(Done, ModeOf(s))) {
      w := Constant(m, false, "", 0, true, Low, OkReply);
    } else if !guarded {
      w := RealizeRound(m, b, guarded, n, s, o);
    } else {
      var w1 := RealizeRound(m, b, guarded, n, s.Ask(), o);
      var answer := Calm(m);
      w := Joined(answer, s.tick + 1, w1);
      JoinedIsBoth(m, answer, s.tick + 1, w1);
      JoinRound(answer, w1, m, b, n, s);
    }
  }

  lemma JoinRound(answer: World, w1: World, m: Macro, b: Block, n: int, s: State)
    requires n > 0 && answer.holds(s.tick)
    ensures var first := ExecBlock(w1, m, b, true, s.Ask());
            ExecLoop(Joined(answer, s.tick + 1, w1), m, b, true, n, s)
            == if first.sig.Done? then ExecLoop(w1, m, b, true, n - 1, first.st) else first
  {
    var w := Joined(answer, s.tick + 1, w1);
    JoinedIsBoth(m, answer, s.tick + 1, w1);
    LoopBodyLocal(w1, w, m, b, true, n, s.Ask());
  }

  /** A failed attempt that may be retried, and the attempts after it. */
  lemma {:induction false} RealizeAgain(m: Macro, b: Block, n: int, s: State, c: Mode, o: Out) returns (w: World)
    requires n > 1 && c.health.Soft? && CanEnd(m, b, ModeOf(s), c)
    requires CanRetry(m, b, n - 1, Mode(ModeOf(s).health, c.halt), o)
    ensures Fits(w, m, o) && OutOf(ExecRetry(w, m, b, n, s)) == o
    decreases b, 1, n, 0
  {
    var begun := s.Log(Attempt);
    LogMode(s, Attempt);
    var w1 := RealizeEnd(m, b, begun, c);
    var r := ExecBlock(w1, m, b, true, begun);
    var back := r.st.(ok := s.ok, outcome := s.outcome).Log(RolledBack(|s.trace|));
    RollBackMode(s, r.st);
    var w2 := RealizeRetry(m, b, n - 1, back, o);
    w := Joined(w1, r.st.tick, w2);
    JoinedIsBoth(m, w1, r.st.tick, w2);
    BlockLocal(w1, w, m, b, true, begun);
    RetryLocal(w2, w, m, b, n - 1, back);
    assert ExecRetry(w, m, b, n, s) == ExecRetry(w, m, b, n - 1, back);
  }

  /** An attempt whose signal the retry does not catch. */
  lemma {:induction false} RealizeEscape(m: Macro, b: Block, n: int, s: State, o: Out) returns (w: World)
    requires n > 0 && Escapes(o.sig) && CanBlock(m, b, true, ModeOf(s), o)
    ensures Fits(w, m, o) && OutOf(ExecRetry(w, m, b, n, s)) == o
    decreases b, 1, n, 0
  {
    LogMode(s, Attempt);
    w := RealizeBlock(m, b, true, s.Log(Attempt), o);
    EscapingAttempt(w, m, b, n, s);
  }

  /** An attempt that decides the retry. */
  lemma {:induction false} RealizeAttempt(m: Macro, b: Block, n: int, s: State, c: Mode) returns (w: World)
    requires n > 0 && CanEnd(m, b, ModeOf(s), c) && (!c.health.Soft? || n == 1)
    ensures UsesDefaultGate(w, m) && Clear(w)
    ensures OutOf(ExecRetry(w, m, b, n, s)) == Out(if c.health.Fine? then Done else Stopped, c)
    decreases b, 1, n, 0
  {
    LogMode(s, Attempt);
    w := RealizeEnd(m, b, s.Log(Attempt), c);
  }

  lemma {:induction false} RealizeRetry(m: Macro, b: Block, n: int, s: State, o: Out) returns (w: World)
    requires CanRetry(m, b, n, ModeOf(s), o)
    ensures Fits(w, m, o) && OutOf(ExecRetry(w, m, b, n, s)) == o
    decreases b, 1, if n < 0 then 0 else n, 1
  {
    if n <= 0 {
      return Calm(m);
    }
    if Escapes(o.sig) && CanBlock(m, b, true, ModeOf(s), o) {
      w := RealizeEscape(m, b, n, s, o);
      return;
    }
    var h: Health, t: Halt :|
      && CanEnd(m, b, ModeOf(s), Mode(h, t))
      && if h.Fine? then o == Out(Done, Mode(h, t))
         else if h.Hard? || n == 1 then o == Out(Stopped, Mode(h, t))
         else CanRetry(m, b, n - 1, Mode(ModeOf(s).health, t), o);
    if !h.Soft? || n == 1 {
      w := RealizeAttempt(m, b, n, s, Mode(h, t));
    } else {
      w := RealizeAgain(m, b, n, s, Mode(h, t), o);
    }
  }

  // ---------------------------------------------------------------- the theorem

  /** In `w`, under the macro's default gate, the run ends by `o`. */
  ghost predicate EndsBy(w: World, m: Macro, actions: seq<Step>, o: Out) {
    UsesDefaultGate(w, m) && OutOf(Run(w, m, actions)) == o
  }

  /** The abstract interpreter is exact: a document can end in a way exactly when some world brings
      it about under the default gate of the macro. */
  lemma OutcomesExact(m: Macro, actions: seq<Step>, o: Out)
    ensures CanFinish(m, actions, o) <==> exists w :: EndsBy(w, m, actions, o)
  {
    assert ModeOf(INITIAL) == START;
    if CanFinish(m, actions, o) {
      var w := RealizeSteps(m, actions, INITIAL, o);
      assert EndsBy(w, m, actions, o);
    }
    if w :| EndsBy(w, m, actions, o) {
      StepsForeseen(w, m, actions, INITIAL);
    }
  }

  // ---------------------------------------------------------------- errors

  /** Some reachable step raises the error. */
  predicate CanRaise(m: Macro, actions: seq<Step>, f: Fault) {
    exists h: Health, t: Halt :: CanFinish(m, actions, Out(Signal.Fault(f), Mode(h, t)))
  }

  ghost predicate RaisesIn(w: World, m: Macro, actions: seq<Step>, f: Fault) {
    UsesDefaultGate(w, m) && Run(w, m, actions).sig == Signal.Fault(f)
  }

  /** A run can raise an error exactly when the document alone shows that it can. */
  lemma ErrorsExact(m: Macro, actions: seq<Step>, f: Fault)
    ensures CanRaise(m, actions, f) <==> exists w :: RaisesIn(w, m, actions, f)
  {
    if h: Health, t: Halt :| CanFinish(m, actions, Out(Signal.Fault(f), Mode(h, t))) {
      OutcomesExact(m, actions, Out(Signal.Fault(f), Mode(h, t)));
      var w :| EndsBy(w, m, actions, Out(Signal.Fault(f), Mode(h, t)));
      assert RaisesIn(w, m, actions, f);
    }
    if w :| RaisesIn(w, m, actions, f) {
      var c := ModeOf(Run(w, m, actions).st);
      assert EndsBy(w, m, actions, Out(Signal.Fault(f), c));
      OutcomesExact(m, actions, Out(Signal.Fault(f), c));
      assert CanFinish(m, actions, Out(Signal.Fault(f), Mode(c.health, c.halt)));
    }
  }

  // ---------------------------------------------------------------- stops

  /** A step begins after a `stop`. */
  ghost predicate StopPassed(trace: seq<Event>) {
    exists i, j :: 0 <= i < j < |trace| && trace[i].Halted? && trace[j].Began?
  }

  lemma {:induction false} HaltInMeans(trace: seq<Event>)
    ensures HaltIn(trace).NoStop? <==> Halted !in trace
    ensures HaltIn(trace).PastStop? <==> StopPassed(trace)
  {
    if trace != [] {
      var n := |trace| - 1;
      var front := trace[..n];
      HaltInMeans(front);
      assert trace == front + [trace[n]];
      if StopPassed(front) {
        var i, j :| 0 <= i < j < |front| && front[i].Halted? && front[j].Began?;
        assert trace[i].Halted? && trace[j].Began?;
      }
      if Halted in front && trace[n].Began? {
        var i :| 0 <= i < n && front[i] == Halted;
        assert trace[i].Halted? && trace[n].Began?;
      }
      if StopPassed(trace) {
        var i, j :| 0 <= i < j < |trace| && trace[i].Halted? && trace[j].Began?;
        assert front[i].Halted? && front[i] in front;
        assert j < n ==> front[j].Began?;
      }
    }
  }

  /** The document can end, by whatever signal, with a step begun after a `stop`. */
  predicate CanGoOn(m: Macro, actions: seq<Step>) {
    exists h: Health ::
      || CanFinish(m, actions, Out(Done, Mode(h, PastStop)))
      || CanFinish(m, actions, Out(Stopped, Mode(h, PastStop)))
      || CanFinish(m, actions, Out(Cancelled, Mode(h, PastStop)))
      || exists f: Fault :: CanFinish(m, actions, Out(Signal.Fault(f), Mode(h, PastStop)))
  }

  ghost predicate GoesOnIn(w: World, m: Macro, actions: seq<Step>) {
    UsesDefaultGate(w, m) && StopPassed(Run(w, m, actions).st.trace)
  }

  lemma CanGoOnMeans(m: Macro, actions: seq<Step>)
    ensures CanGoOn(m, actions) <==> exists o :: CanFinish(m, actions, o) && o.mode.halt.PastStop?
  {
    if o :| CanFinish(m, actions, o) && o.mode.halt.PastStop? {
      assert o == Out(o.sig, Mode(o.mode.health, PastStop));
      match o.sig {
        case Done =>
        case Stopped =>
        case Cancelled =>
        case Fault(f) =>
      }
    }
  }

  lemma {:induction false} PassedStays(trace: seq<Event>, longer: seq<Event>)
    requires trace <= longer && HaltIn(trace).PastStop?
    ensures HaltIn(longer).PastStop?
    decreases |longer|
  {
    if |trace| < |longer| {
      PassedStays(trace, longer[..|longer| - 1]);
    } else {
      assert trace == longer;
    }
  }

  /** `stop` ends a macro at once, in every run, exactly for the documents of which the abstract
      interpreter finds no ending past a `stop`. */
  lemma StopExact(m: Macro, actions: seq<Step>)
    ensures CanGoOn(m, actions) <==> exists w :: GoesOnIn(w, m, actions)
  {
    CanGoOnMeans(m, actions);
    if o :| CanFinish(m, actions, o) && o.mode.halt.PastStop? {
      OutcomesExact(m, actions, o);
      var w :| EndsBy(w, m, actions, o);
      HaltInMeans(Run(w, m, actions).st.trace);
      assert GoesOnIn(w, m, actions);
    }
    if w :| GoesOnIn(w, m, actions) {
      var r := Run(w, m, actions);
      HaltInMeans(r.st.trace);
      assert EndsBy(w, m, actions, OutOf(r));
      OutcomesExact(m, actions, OutOf(r));
    }
  }

  /** Whatever follows a `stop` that was caught begins. */
  lemma RestBegins(w: World, m: Macro, rest: seq<Step>, s: State)
    requires rest != [] && Clear(w) && HaltIn(s.trace).AtStop?
    ensures HaltIn(ExecSteps(w, m, rest, s).st.trace).PastStop?
  {
    var begun := s.Ask().Log(Began(s.tick));
    LogMode(s.Ask(), Began(s.tick));
    T.StepKeeps(w, m, rest[0], begun);
    var first := ExecStep(w, m, rest[0], begun);
    T.StepsKeep(w, m, rest[1..], first.st);
    PassedStays(begun.trace, ExecSteps(w, m, rest, s).st.trace);
  }

  /** If a step can end normally with a `stop` behind it, what follows it can begin. */
  lemma NextStepGoesOn(m: Macro, step: Step, c: Mode, rest: seq<Step>)
    requires CanStep(m, step, START, Out(Done, c)) && c.halt.AtStop? && rest != []
    ensures CanGoOn(m, [step] + rest)
  {
    var doc := [step] + rest;
    var begun := INITIAL.Ask().Log(Began(0));
    LogMode(INITIAL.Ask(), Began(0));
    assert ModeOf(begun) == START;
    var w1 := RealizeStep(m, step, begun, Out(Done, c));
    var r := ExecStep(w1, m, step, begun);
    var w2 := Calm(m);
    var w := Joined(w1, r.st.tick, w2);
    JoinedIsBoth(m, w1, r.st.tick, w2);
    StepLocal(w1, w, m, step, begun);
    RestBegins(w, m, rest, r.st);
    assert doc[0] == step && doc[1..] == rest;
    assert Run(w, m, doc) == ExecSteps(w, m, rest, r.st);
    PassedRunGoesOn(w, m, doc);
  }

  lemma PassedRunGoesOn(w: World, m: Macro, doc: seq<Step>)
    requires UsesDefaultGate(w, m) && HaltIn(Run(w, m, doc).st.trace).PastStop?
    ensures CanGoOn(m, doc)
  {
    HaltInMeans(Run(w, m, doc).st.trace);
    assert GoesOnIn(w, m, doc);
    StopExact(m, doc);
  }

  /** A `try` without `finally`, or a `retry` with at least one attempt, around `body`. */
  predicate Catches(outer: Step, body: seq<Step>) {
    && outer.doSteps == Block(body)
    && ((outer.kind.Try? && outer.finallySteps == Absent) || (outer.kind.Retry? && MaxAttempts(outer) > 0))
  }

  /** Wherever it stands in a `try` or a `retry`, at any depth, a `stop` that unwinds to there does
      not end the macro: whatever follows can begin. */
  lemma CaughtStopGoesOn(m: Macro, outer: Step, body: seq<Step>, rest: seq<Step>)
    requires Catches(outer, body) && rest != []
    requires CanSteps(m, body, START, Out(Stopped, Mode(Fine, AtStop)))
    ensures CanGoOn(m, [outer] + rest)
  {
    assert CanBlock(m, Block(body), true, START, Out(Stopped, Mode(Fine, AtStop)));
    assert CanEnd(m, outer.doSteps, START, Mode(Fine, AtStop));
    assert CanStep(m, outer, START, Out(Done, Mode(Fine, AtStop)));
    NextStepGoesOn(m, outer, Mode(Fine, AtStop), rest);
  }

  // ---------------------------------------------------------------- documents without handlers

  /** No `try` and no `retry` at any depth. */
  predicate HandlerFree(s: Step)
    decreases s, 1
  {
    && !s.kind.Try? && !s.kind.Retry?
    && BlockHandlerFree(s.thenSteps) && BlockHandlerFree(s.elseSteps)
    && BlockHandlerFree(s.doSteps) && BlockHandlerFree(s.defaultSteps)
    && forall c | c in s.cases :: AllHandlerFree(c.body)
  }

  predicate BlockHandlerFree(b: Block)
    decreases b, 0
  {
    b.Block? ==> AllHandlerFree(b.steps)
  }

  predicate AllHandlerFree(steps: seq<Step>)
    decreases steps, 0
  {
    forall s | s in steps :: HandlerFree(s)
  }

  /** Among the events added from `s` on, a `stop` or a failure is the last, and leaves by `_Stop`. */
  ghost predicate Final(s: State, r: Result) {
    && s.trace <= r.st.trace
    && forall k | |s.trace| <= k < |r.st.trace| && (r.st.trace[k].Halted? || r.st.trace[k].Failed?) ::
         k == |r.st.trace| - 1 && r.sig.Stopped?
  }

  lemma FinalChain(a: State, first: Result, r: Result)
    requires Final(a, first) && first.sig.Done? && Final(first.st, r)
    ensures Final(a, r)
  {
    assert forall k | |a.trace| <= k < |first.st.trace| ::
        r.st.trace[k] == first.st.trace[k] && !first.st.trace[k].Halted? && !first.st.trace[k].Failed?;
  }

  lemma PerformFinal(w: World, step: Step, gateTick: nat, s: State)
    requires step.kind.Verb?
    ensures Final(s, Perform(w, step, gateTick, s))
  {
  }

  lemma ActionFinal(w: World, m: Macro, step: Step, s: State)
    requires step.kind.Verb?
    ensures Final(s, ExecAction(w, m, step, s))
  {
    PerformFinal(w, step, s.tick, s.Ask());
    PerformFinal(w, step, s.tick, s.Ask().Ask());
  }

  lemma {:induction false} StepsFinal(w: World, m: Macro, steps: seq<Step>, s: State)
    requires AllHandlerFree(steps)
    ensures Final(s, ExecSteps(w, m, steps, s))
    decreases steps, 0, 0
  {
    if steps != [] && !w.cancelled(s.tick) {
      assert steps[0] in steps;
      var begun := s.Ask().Log(Began(s.tick));
      assert Final(s, Result(Done, begun));
      StepFinal(w, m, steps[0], begun);
      var r := ExecStep(w, m, steps[0], begun);
      FinalChain(s, Result(Done, begun), r);
      if r.sig.Done? {
        StepsFinal(w, m, steps[1..], r.st);
        FinalChain(s, r, ExecSteps(w, m, steps[1..], r.st));
      }
    }
  }

  lemma {:induction false} BlockFinal(w: World, m: Macro, b: Block, needed: bool, s: State)
    requires BlockHandlerFree(b)
    ensures Final(s, ExecBlock(w, m, b, needed, s))
    decreases b, 0, 0
  {
    if b.Block? {
      StepsFinal(w, m, b.steps, s);
    }
  }

  lemma {:induction false} SwitchFinal(w: World, m: Macro, step: Step, s: State)
    requires HandlerFree(step) && step.kind.Switch?
    ensures Final(s, ExecStep(w, m, step, s))
    decreases step, 1, 0
  {
    var i := CaseIndex(step.cases, w.choice(s.tick));
    if i < |step.cases| {
      assert step.cases[i] in step.cases;
      StepsFinal(w, m, step.cases[i].body, s.Ask());
    } else {
      BlockFinal(w, m, step.defaultSteps, false, s.Ask());
    }
  }

  lemma {:induction false} IfFinal(w: World, m: Macro, step: Step, s: State)
    requires HandlerFree(step) && step.kind.If?
    ensures Final(s, ExecStep(w, m, step, s))
    decreases step, 1, 0
  {
    if w.holds(s.tick) {
      BlockFinal(w, m, step.thenSteps, true, s.Ask());
    } else {
      BlockFinal(w, m, step.elseSteps, false, s.Ask());
    }
  }

  lemma {:induction false} ForEachFinal(w: World, m: Macro, step: Step, s: State)
    requires HandlerFree(step) && step.kind.ForEach?
    ensures Final(s, ExecStep(w, m, step, s))
    decreases step, 1, 0
  {
    var n := if step.literalItems.Some? then step.literalItems.value else w.itemCount(s.tick);
    ItemsFinal(w, m, step.doSteps, n, s.Ask());
  }

  lemma {:induction false} StepFinal(w: World, m: Macro, step: Step, s: State)
    requires HandlerFree(step)
    ensures Final(s, ExecStep(w, m, step, s))
    decreases step, 2, 0
  {
    match step.kind {
      case Verb(_) => ActionFinal(w, m, step, s);
      case If => IfFinal(w, m, step, s);
      case Switch => SwitchFinal(w, m, step, s);
      case ForEach => ForEachFinal(w, m, step, s);
      case Loop => LoopFinal(w, m, step.doSteps, step.whileGiven, MaxIterations(step), s);
      case _ =>
    }
  }

  lemma {:induction false} ItemsFinal(w: World, m: Macro, b: Block, n: nat, s: State)
    requires BlockHandlerFree(b)
    ensures Final(s, ExecItems(w, m, b, n, s))
    decreases b, 1, n
  {
    if n > 0 {
      BlockFinal(w, m, b, true, s);
      var r := ExecBlock(w, m, b, true, s);
      if r.sig.Done? {
        ItemsFinal(w, m, b, n - 1, r.st);
        FinalChain(s, r, ExecItems(w, m, b, n - 1, r.st));
      }
    }
  }

  lemma {:induction false} LoopFinal(w: World, m: Macro, b: Block, guarded: bool, n: int, s: State)
    requires BlockHandlerFree(b)
    ensures Final(s, ExecLoop(w, m, b, guarded, n, s))
    decreases b, 1, if n < 0 then 0 else n
  {
    if n > 0 && (guarded ==> w.holds(s.tick)) {
      var s0 := if guarded then s.Ask() else s;
      BlockFinal(w, m, b, true, s0);
      var r := ExecBlock(w, m, b, true, s0);
      if r.sig.Done? {
        LoopFinal(w, m, b, guarded, n - 1, r.st);
        FinalChain(s0, r, ExecLoop(w, m, b, guarded, n - 1, r.st));
      }
    }
  }

  /** In a document without `try` and `retry` nothing at all follows a `stop` or a failure, and the
      exception reaches the run: there, and by `StopExact` wherever no ending lies past a `stop`,
      `stop` does end the macro at once. */
  lemma UncaughtIsLast(w: World, m: Macro, actions: seq<Step>, k: nat)
    requires AllHandlerFree(actions)
    requires k < |Run(w, m, actions).st.trace|
    requires Run(w, m, actions).st.trace[k].Halted? || Run(w, m, actions).st.trace[k].Failed?
    ensures k == |Run(w, m, actions).st.trace| - 1 && Run(w, m, actions).sig.Stopped?
  {
    StepsFinal(w, m, actions, INITIAL);
  }
}
