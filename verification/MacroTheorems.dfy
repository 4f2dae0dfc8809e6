/** What every macro run keeps: roll-back accounting, cancellation, permission and bounds. */
module MacroTheorems {
  import opened Common
  import opened MacroSyntax
  import opened MacroSemantics
  import A = Autonomy

  // ---------------------------------------------------------------- what traces mean

  /** The failure at `p` lies inside a retry attempt that was rolled back afterwards. */
  ghost predicate Erased(trace: seq<Event>, p: nat) {
    exists b: nat :: p < b < |trace| && trace[b].RolledBack? && trace[b].start <= p
  }

  ghost predicate AllErased(trace: seq<Event>) {
    forall p: nat | p < |trace| && trace[p].Failed? :: Erased(trace, p)
  }

  /** Of the failures that were not rolled back, the latest is of this code. */
  ghost predicate Blames(trace: seq<Event>, code: string) {
    exists p: nat :: BlamesAt(trace, code, p)
  }

  ghost predicate BlamesAt(trace: seq<Event>, code: string, p: nat) {
    && p < |trace| && trace[p] == Failed(code) && !Erased(trace, p)
    && forall q: nat | p < q < |trace| && trace[q].Failed? :: Erased(trace, q)
  }

  function Actions(trace: seq<Event>): nat {
    if trace == [] then 0
    else Actions(trace[..|trace| - 1]) + if trace[|trace| - 1].Acted? then 1 else 0
  }

  /** No error envelope of the device carries the code "ok". */
  ghost predicate HonestCodes(w: World) {
    forall t :: w.device(t) != ErrorReply("ok")
  }

  /** The record agrees with the trace. */
  ghost predicate Consistent(w: World, s: State) {
    && (s.ok <==> AllErased(s.trace))
    && (s.ok ==> s.outcome == "ok")
    && (HonestCodes(w) && s.outcome == "ok" ==> s.ok)
    && (!s.ok ==> Blames(s.trace, s.outcome))
  }

  /** The record counts every call of `run_action` but one that raised, which ends the run. */
  ghost predicate Counted(sig: Signal, s: State) {
    Actions(s.trace) == s.stepsRun + if sig == Signal.Fault(ActionRaised) then 1 else 0
  }

  /** The gate let the action through: by itself, or because an attended user confirmed. */
  predicate Permitted(w: World, m: Macro, t: nat) {
    w.gate(t).Allow? || (w.gate(t).Confirm? && !m.unattended && w.confirms(t + 1))
  }

  // ---------------------------------------------------------------- what every stretch of a run keeps

  /** What may be said of the event at position `k`, added while going from `s` to `s'`. */
  ghost predicate EventSound(w: World, m: Macro, s: State, sig: Signal, s': State, k: nat)
    requires |s.trace| <= k < |s'.trace|
  {
    match s'.trace[k]
    case Began(t) => s.tick <= t < s'.tick && !w.cancelled(t)
    case Refused(t) => s.tick <= t < s'.tick && w.cancelled(t) && sig.Cancelled? && k == |s'.trace| - 1
    case Acted(t) =>
      && s.tick <= t < s'.tick && Permitted(w, m, t)
      && 0 < k && 0 < t && s'.trace[k - 1] == Began(t - 1)
    case RolledBack(start) =>
      && |s.trace| <= start < k && s'.trace[start].Attempt?
      && k + 1 < |s'.trace| && s'.trace[k + 1].Attempt?
    case _ => true
  }

  ghost predicate Keeps(w: World, m: Macro, s: State, sig: Signal, s': State) {
    && s.tick <= s'.tick
    && s.trace <= s'.trace
    && (forall k: nat | |s.trace| <= k < |s'.trace| :: EventSound(w, m, s, sig, s', k))
    && (sig.Cancelled? ==> |s.trace| < |s'.trace| && s'.trace[|s'.trace| - 1].Refused?)
    && (!s.ok ==> !s'.ok)
    && (Consistent(w, s) ==> Consistent(w, s'))
    && (Counted(Done, s) ==> Counted(sig, s'))
  }

  lemma KeepsTransitive(w: World, m: Macro, a: State, b: State, sig: Signal, c: State)
    requires Keeps(w, m, a, Done, b) && Keeps(w, m, b, sig, c)
    ensures Keeps(w, m, a, sig, c)
  {
    forall k: nat | |a.trace| <= k < |c.trace|
      ensures EventSound(w, m, a, sig, c, k)
    {
      if k < |b.trace| {
        assert EventSound(w, m, a, Done, b, k);
        assert c.trace[k] == b.trace[k];
      } else {
        assert EventSound(w, m, b, sig, c, k);
      }
    }
  }

  lemma KeepsAfterAsk(w: World, m: Macro, s: State, sig: Signal, s': State)
    requires Keeps(w, m, s.Ask(), sig, s')
    ensures Keeps(w, m, s, sig, s')
  {
    assert Keeps(w, m, s, Done, s.Ask());
    KeepsTransitive(w, m, s, s.Ask(), sig, s');
  }

  /** Catching `_Stop`, or raising it, keeps everything. */
  lemma KeepsUnderSignal(w: World, m: Macro, s: State, sig: Signal, sig': Signal, s': State)
    requires Keeps(w, m, s, sig, s') && (sig.Done? || sig.Stopped?) && (sig'.Done? || sig'.Stopped?)
    ensures Keeps(w, m, s, sig', s')
  {
    forall k: nat | |s.trace| <= k < |s'.trace|
      ensures EventSound(w, m, s, sig', s', k)
    {
      assert EventSound(w, m, s, sig, s', k);
    }
  }

  lemma ErasedAfterLog(trace: seq<Event>, e: Event, p: nat)
    requires p < |trace|
    ensures Erased(trace + [e], p) <==> Erased(trace, p) || (e.RolledBack? && e.start <= p)
  {
    var longer := trace + [e];
    if Erased(trace, p) {
      var b: nat :| p < b < |trace| && trace[b].RolledBack? && trace[b].start <= p;
      assert longer[b] == trace[b];
    }
    if e.RolledBack? && e.start <= p {
      assert longer[|trace|] == e;
    }
  }

  lemma BlamesAfterLog(trace: seq<Event>, e: Event, code: string)
    requires if e.Failed? then e.code == code else !e.RolledBack? && Blames(trace, code)
    ensures Blames(trace + [e], code)
  {
    var longer := trace + [e];
    if e.Failed? {
      assert BlamesAt(longer, code, |trace|);
    } else {
      var p: nat :| BlamesAt(trace, code, p);
      forall q: nat | q < |trace|
        ensures longer[q] == trace[q] && (Erased(longer, q) <==> Erased(trace, q))
      {
        ErasedAfterLog(trace, e, q);
      }
      assert BlamesAt(longer, code, p);
    }
  }

  /** Logging an event that neither fails nor rolls back leaves the accounting alone. */
  lemma LogKeepsConsistency(w: World, s: State, e: Event, s': State)
    requires Consistent(w, s) && !e.RolledBack?
    requires s'.trace == s.trace + [e]
    requires e.Failed? ==> !s'.ok && s'.outcome == e.code && (HonestCodes(w) ==> e.code != "ok")
    requires !e.Failed? ==> s'.ok == s.ok && s'.outcome == s.outcome
    ensures Consistent(w, s')
  {
    var n := |s.trace|;
    if !s'.ok {
      BlamesAfterLog(s.trace, e, s'.outcome);
    }
    assert s'.trace[..n] == s.trace;
    forall p: nat | p < n
      ensures Erased(s'.trace, p) <==> Erased(s.trace, p)
    {
      ErasedAfterLog(s.trace, e, p);
    }
    if e.Failed? {
      assert s'.trace[n].Failed? && !Erased(s'.trace, n);
    } else {
      assert forall p: nat | p < |s'.trace| && s'.trace[p].Failed? :: p < n && s.trace[p].Failed?;
      assert forall p: nat | p < n && s.trace[p].Failed? :: s'.trace[p].Failed?;
    }
  }

  lemma LogCounts(trace: seq<Event>, e: Event)
    ensures Actions(trace + [e]) == Actions(trace) + if e.Acted? then 1 else 0
  {
    assert (trace + [e])[..|trace|] == trace;
  }

  lemma LogStaysCounted(s: State, e: Event)
    requires !e.Acted?
    ensures Counted(Done, s.Log(e)) <==> Counted(Done, s)
  {
    LogCounts(s.trace, e);
  }

  lemma FailKeeps(w: World, m: Macro, s: State, code: string)
    requires HonestCodes(w) ==> code != "ok"
    ensures Keeps(w, m, s, Stopped, s.Fail(code))
  {
    LogStaysCounted(s, Failed(code));
    if Consistent(w, s) {
      LogKeepsConsistency(w, s, Failed(code), s.Fail(code));
    }
  }

  /** The step being executed began just now. */
  ghost predicate JustBegan(s: State) {
    0 < s.tick && s.trace != [] && s.trace[|s.trace| - 1] == Began(s.tick - 1)
  }

  lemma HaltKeeps(w: World, m: Macro, s: State)
    ensures Keeps(w, m, s, Stopped, s.Log(Halted))
  {
    LogStaysCounted(s, Halted);
    if Consistent(w, s) {
      LogKeepsConsistency(w, s, Halted, s.Log(Halted));
    }
  }

  lemma RefusalKeeps(w: World, m: Macro, s: State)
    requires w.cancelled(s.tick)
    ensures Keeps(w, m, s, Cancelled, s.Ask().Log(Refused(s.tick)))
  {
    LogStaysCounted(s.Ask(), Refused(s.tick));
    if Consistent(w, s) {
      LogKeepsConsistency(w, s, Refused(s.tick), s.Ask().Log(Refused(s.tick)));
    }
  }

  lemma BeginningKeeps(w: World, m: Macro, s: State)
    requires !w.cancelled(s.tick)
    ensures Keeps(w, m, s, Done, s.Ask().Log(Began(s.tick)))
  {
    LogStaysCounted(s.Ask(), Began(s.tick));
    if Consistent(w, s) {
      LogKeepsConsistency(w, s, Began(s.tick), s.Ask().Log(Began(s.tick)));
    }
  }

  /** A call of `run_action` that returned, and one that raised. */
  lemma CallKeeps(w: World, m: Macro, gateTick: nat, s0: State, s: State)
    requires JustBegan(s0) && gateTick == s0.tick
    requires s0.tick <= gateTick < s.tick && s == s0.(tick := s.tick) && Permitted(w, m, gateTick)
    ensures var called := s.Ask().Log(Acted(gateTick));
            && Keeps(w, m, s0, Done, called.(stepsRun := s.stepsRun + 1))
            && Keeps(w, m, s0, Signal.Fault(ActionRaised), called)
  {
    LogCounts(s0.trace, Acted(gateTick));
    if Consistent(w, s0) {
      LogKeepsConsistency(w, s, Acted(gateTick), s.Ask().Log(Acted(gateTick)));
    }
  }

  lemma ActKeeps(w: World, m: Macro, gateTick: nat, s0: State, s: State)
    requires JustBegan(s0) && gateTick == s0.tick
    requires s0.tick <= gateTick < s.tick && s == s0.(tick := s.tick) && Permitted(w, m, gateTick)
    ensures var r := Act(w, gateTick, s); Keeps(w, m, s0, r.sig, r.st)
  {
    CallKeeps(w, m, gateTick, s0, s);
    if w.device(s.tick).ErrorReply? {
      var acted := s.Ask().Log(Acted(gateTick)).(stepsRun := s.stepsRun + 1);
      DeviceFailureKeeps(w, m, s0, acted, s.tick);
    }
  }

  lemma DeviceFailureKeeps(w: World, m: Macro, s0: State, acted: State, t: nat)
    requires Keeps(w, m, s0, Done, acted) && w.device(t).ErrorReply?
    ensures Keeps(w, m, s0, Stopped, acted.Fail(w.device(t).code))
  {
    FailKeeps(w, m, acted, w.device(t).code);
    KeepsTransitive(w, m, s0, acted, Stopped, acted.Fail(w.device(t).code));
  }

  lemma PerformKeeps(w: World, m: Macro, step: Step, gateTick: nat, s0: State, s: State)
    requires step.kind.Verb? && JustBegan(s0) && gateTick == s0.tick
    requires s0.tick <= gateTick < s.tick && s == s0.(tick := s.tick) && Permitted(w, m, gateTick)
    ensures var r := Perform(w, step, gateTick, s); Keeps(w, m, s0, r.sig, r.st)
  {
    if MappingFault(step).None? {
      ActKeeps(w, m, gateTick, s0, s);
    }
  }

  /** A failure that follows questions to the gate or the user. */
  lemma RefusedKeeps(w: World, m: Macro, s: State, asked: State, code: string)
    requires s.tick <= asked.tick && asked == s.(tick := asked.tick) && (HonestCodes(w) ==> code != "ok")
    ensures Keeps(w, m, s, Stopped, asked.Fail(code))
  {
    FailKeeps(w, m, asked, code);
    assert Keeps(w, m, s, Done, asked);
    KeepsTransitive(w, m, s, asked, Stopped, asked.Fail(code));
  }

  lemma ActionKeeps(w: World, m: Macro, step: Step, s: State)
    requires step.kind.Verb? && JustBegan(s)
    ensures var r := ExecAction(w, m, step, s); Keeps(w, m, s, r.sig, r.st)
  {
    var asked := s.Ask();
    if w.gate(s.tick).Deny? {
      RefusedKeeps(w, m, s, asked, "guarded_action");
    } else if w.gate(s.tick).Allow? {
      PerformKeeps(w, m, step, s.tick, s, asked);
    } else if m.unattended {
      RefusedKeeps(w, m, s, asked, "confirmation_required");
    } else if !w.confirms(asked.tick) {
      RefusedKeeps(w, m, s, asked.Ask(), "confirmation_required");
    } else {
      PerformKeeps(w, m, step, s.tick, s, asked.Ask());
    }
  }

  /** What was counted in an attempt stays counted when it is rolled back. */
  lemma RollBackCounts(s: State, sig: Signal, failed: State)
    requires sig.Done? || sig.Stopped?
    requires Counted(Done, s.Log(Attempt)) ==> Counted(sig, failed)
    ensures Counted(Done, s) ==>
              Counted(Done, failed.(ok := s.ok, outcome := s.outcome).Log(RolledBack(|s.trace|)))
  {
    LogStaysCounted(s, Attempt);
    LogStaysCounted(failed.(ok := s.ok, outcome := s.outcome), RolledBack(|s.trace|));
  }

  /** A roll-back erases what failed in its attempt, and leaves what came before as it was. */
  lemma RollBackErases(w: World, m: Macro, s: State, sig: Signal, failed: State, p: nat)
    requires Keeps(w, m, s.Log(Attempt), sig, failed) && p < |failed.trace|
    ensures Erased(failed.trace + [RolledBack(|s.trace|)], p) <==> p >= |s.trace| || Erased(s.trace, p)
  {
    var n := |s.trace|;
    ErasedAfterLog(failed.trace, RolledBack(n), p);
    assert s.Log(Attempt).trace[n] == failed.trace[n];
    if p < n {
      if Erased(failed.trace, p) {
        var b: nat :| p < b < |failed.trace| && failed.trace[b].RolledBack? && failed.trace[b].start <= p;
        assert b > n ==> EventSound(w, m, s.Log(Attempt), sig, failed, b);
        assert b < n && s.trace[b] == s.Log(Attempt).trace[b] == failed.trace[b];
      }
      if Erased(s.trace, p) {
        var b: nat :| p < b < n && s.trace[b].RolledBack? && s.trace[b].start <= p;
        assert failed.trace[b] == s.Log(Attempt).trace[b] == s.trace[b];
      }
    }
  }

  /** Rolling an attempt back restores the record to what the trace before the attempt says. */
  lemma RollBackKeeps(w: World, m: Macro, s: State, sig: Signal, failed: State)
    requires Keeps(w, m, s.Log(Attempt), sig, failed) && (sig.Done? || sig.Stopped?)
    ensures var back := failed.(ok := s.ok, outcome := s.outcome).Log(RolledBack(|s.trace|));
            && s.tick <= back.tick && s.trace <= back.trace
            && (Consistent(w, s) ==> Consistent(w, back))
            && (Counted(Done, s) ==> Counted(Done, back))
  {
    RollBackCounts(s, sig, failed);
    var n := |s.trace|;
    var back := failed.(ok := s.ok, outcome := s.outcome).Log(RolledBack(n));
    assert s.trace == s.Log(Attempt).trace[..n] == failed.trace[..n] == back.trace[..n];
    assert forall p: nat | p < n :: s.trace[p] == back.trace[p];
    forall p: nat | p < |failed.trace|
      ensures Erased(back.trace, p) <==> p >= n || Erased(s.trace, p)
    {
      RollBackErases(w, m, s, sig, failed, p);
    }
    assert !back.trace[|failed.trace|].Failed?;
    assert AllErased(back.trace) <==> AllErased(s.trace);
    if Blames(s.trace, s.outcome) {
      var p: nat :| BlamesAt(s.trace, s.outcome, p);
      assert BlamesAt(back.trace, s.outcome, p);
    }
  }

  /** An attempt that is rolled back, together with the attempts after it, keeps everything. */
  lemma RetryChainKeeps(w: World, m: Macro, s: State, sig: Signal, failed: State, last: Signal, s': State)
    requires Keeps(w, m, s.Log(Attempt), sig, failed) && (sig.Done? || sig.Stopped?)
    requires var back := failed.(ok := s.ok, outcome := s.outcome).Log(RolledBack(|s.trace|));
             && Keeps(w, m, back, last, s')
             && |back.trace| < |s'.trace| && s'.trace[|back.trace|].Attempt?
    ensures Keeps(w, m, s, last, s')
  {
    RollBackKeeps(w, m, s, sig, failed);
    var back := failed.(ok := s.ok, outcome := s.outcome).Log(RolledBack(|s.trace|));
    forall k: nat | |s.trace| <= k < |s'.trace|
      ensures EventSound(w, m, s, last, s', k)
    {
      if |s.trace| < k < |failed.trace| {
        assert EventSound(w, m, s.Log(Attempt), sig, failed, k);
        assert s'.trace[k] == back.trace[k] == failed.trace[k];
      } else if k == |failed.trace| {
        assert s'.trace[k] == back.trace[k];
        var n := |s.trace|;
        assert s'.trace[n] == back.trace[n] == failed.trace[n] == s.Log(Attempt).trace[n];
      } else if k > |failed.trace| {
        assert EventSound(w, m, back, last, s', k);
      } else {
        assert s'.trace[k] == back.trace[k] == failed.trace[k] == s.Log(Attempt).trace[k];
      }
    }
  }

  lemma AttemptKeeps(w: World, m: Macro, s: State, sig: Signal, s': State)
    requires Keeps(w, m, s.Log(Attempt), sig, s')
    ensures Keeps(w, m, s, sig, s')
  {
    LogStaysCounted(s, Attempt);
    if Consistent(w, s) {
      LogKeepsConsistency(w, s, Attempt, s.Log(Attempt));
    }
    assert Keeps(w, m, s, Done, s.Log(Attempt));
    KeepsTransitive(w, m, s, s.Log(Attempt), sig, s');
  }

  // ---------------------------------------------------------------- the induction over documents

  lemma {:induction false} StepsKeep(w: World, m: Macro, steps: seq<Step>, s: State)
    ensures var r := ExecSteps(w, m, steps, s); Keeps(w, m, s, r.sig, r.st)
    decreases steps, 0, 0
  {
    if steps != [] {
      if w.cancelled(s.tick) {
        RefusalKeeps(w, m, s);
      } else {
        BeginningKeeps(w, m, s);
        var begun := s.Ask().Log(Began(s.tick));
        var r := ExecStep(w, m, steps[0], begun);
        StepKeeps(w, m, steps[0], begun);
        KeepsTransitive(w, m, s, begun, r.sig, r.st);
        if r.sig.Done? {
          StepsKeep(w, m, steps[1..], r.st);
          var r' := ExecSteps(w, m, steps[1..], r.st);
          KeepsTransitive(w, m, s, r.st, r'.sig, r'.st);
        }
      }
    }
  }

  lemma {:induction false} BlockKeeps(w: World, m: Macro, b: Block, needed: bool, s: State)
    ensures var r := ExecBlock(w, m, b, needed, s); Keeps(w, m, s, r.sig, r.st)
    decreases b, 0, 0
  {
    if b.Block? {
      StepsKeep(w, m, b.steps, s);
    }
  }

  lemma {:induction false} TryKeeps(w: World, m: Macro, step: Step, s: State)
    requires step.kind.Try?
    ensures var r := ExecStep(w, m, step, s); Keeps(w, m, s, r.sig, r.st)
    decreases step, 1, 0
  {
    BlockKeeps(w, m, step.doSteps, true, s);
    var r := ExecBlock(w, m, step.doSteps, true, s);
    if r.sig.Done? || r.sig.Stopped? {
      KeepsUnderSignal(w, m, s, r.sig, Done, r.st);
      BlockKeeps(w, m, step.finallySteps, false, r.st);
      var r' := ExecBlock(w, m, step.finallySteps, false, r.st);
      KeepsTransitive(w, m, s, r.st, r'.sig, r'.st);
    }
  }

  lemma {:induction false} BranchKeeps(w: World, m: Macro, step: Step, s: State)
    requires step.kind.If? || step.kind.Switch?
    ensures var r := ExecStep(w, m, step, s); Keeps(w, m, s, r.sig, r.st)
    decreases step, 1, 0
  {
    var asked := s.Ask();
    var i := CaseIndex(step.cases, w.choice(s.tick));
    if step.kind.If? {
      BlockKeeps(w, m, step.thenSteps, true, asked);
      BlockKeeps(w, m, step.elseSteps, false, asked);
    } else if i < |step.cases| {
      StepsKeep(w, m, step.cases[i].body, asked);
    } else {
      BlockKeeps(w, m, step.defaultSteps, false, asked);
    }
    var r := ExecStep(w, m, step, s);
    if r != Result(Signal.Fault(MissingSubkey), s) {
      KeepsAfterAsk(w, m, s, r.sig, r.st);
    }
  }

  lemma {:induction false} ForEachKeeps(w: World, m: Macro, step: Step, s: State)
    requires step.kind.ForEach?
    ensures var r := ExecStep(w, m, step, s); Keeps(w, m, s, r.sig, r.st)
    decreases step, 1, 0
  {
    var n := if step.literalItems.Some? then step.literalItems.value else w.itemCount(s.tick);
    ItemsKeep(w, m, step.doSteps, n, s.Ask());
    var r := ExecStep(w, m, step, s);
    if r != Result(Signal.Fault(MissingSubkey), s) {
      KeepsAfterAsk(w, m, s, r.sig, r.st);
    }
  }

  lemma ConfirmKeeps(w: World, m: Macro, s: State)
    ensures Keeps(w, m, s, Done, s.Ask())
    ensures Keeps(w, m, s, Stopped, s.Ask().Fail("confirmation_required"))
  {
    FailKeeps(w, m, s.Ask(), "confirmation_required");
    KeepsAfterAsk(w, m, s, Stopped, s.Ask().Fail("confirmation_required"));
  }

  lemma {:induction false} StepKeeps(w: World, m: Macro, step: Step, s: State)
    requires JustBegan(s)
    ensures var r := ExecStep(w, m, step, s); Keeps(w, m, s, r.sig, r.st)
    decreases step, 2, 0
  {
    match step.kind {
      case Stop => HaltKeeps(w, m, s);
      case Verb(_) => ActionKeeps(w, m, step, s);
      case If => BranchKeeps(w, m, step, s);
      case Switch => BranchKeeps(w, m, step, s);
      case ForEach => ForEachKeeps(w, m, step, s);
      case Loop => LoopKeeps(w, m, step.doSteps, step.whileGiven, MaxIterations(step), s);
      case Retry => RetryKeeps(w, m, step.doSteps, MaxAttempts(step), s);
      case Try => TryKeeps(w, m, step, s);
      case Confirm => ConfirmKeeps(w, m, s);
      case _ => AloneKeeps(w, m, s);
    }
  }

  lemma AloneKeeps(w: World, m: Macro, s: State)
    ensures Keeps(w, m, s, Done, s)
    ensures forall f: Fault :: f != ActionRaised ==> Keeps(w, m, s, Signal.Fault(f), s)
  {
  }

  lemma {:induction false} ItemsKeep(w: World, m: Macro, b: Block, n: nat, s: State)
    ensures var r := ExecItems(w, m, b, n, s); Keeps(w, m, s, r.sig, r.st)
    decreases b, 1, n
  {
    if n != 0 {
      BlockKeeps(w, m, b, true, s);
      var r := ExecBlock(w, m, b, true, s);
      if r.sig.Done? {
        ItemsKeep(w, m, b, n - 1, r.st);
        var r' := ExecItems(w, m, b, n - 1, r.st);
        KeepsTransitive(w, m, s, r.st, r'.sig, r'.st);
      }
    }
  }

  lemma {:induction false} LoopKeeps(w: World, m: Macro, b: Block, guarded: bool, n: int, s: State)
    ensures var r := ExecLoop(w, m, b, guarded, n, s); Keeps(w, m, s, r.sig, r.st)
    decreases b, 1, if n < 0 then 0 else n
  {
    if n > 0 && (guarded ==> w.holds(s.tick)) {
      var s0 := if guarded then s.Ask() else s;
      BlockKeeps(w, m, b, true, s0);
      var r := ExecBlock(w, m, b, true, s0);
      if r.sig.Done? {
        LoopKeeps(w, m, b, guarded, n - 1, r.st);
        var r' := ExecLoop(w, m, b, guarded, n - 1, r.st);
        KeepsTransitive(w, m, s0, r.st, r'.sig, r'.st);
      }
      if guarded {
        var r' := ExecLoop(w, m, b, guarded, n, s);
        KeepsAfterAsk(w, m, s, r'.sig, r'.st);
      }
    }
  }

  lemma {:induction false} RetryKeeps(w: World, m: Macro, b: Block, n: int, s: State)
    ensures var r := ExecRetry(w, m, b, n, s);
            && Keeps(w, m, s, r.sig, r.st)
            && (n > 0 ==> |s.trace| < |r.st.trace| && r.st.trace[|s.trace|].Attempt?)
    decreases b, 1, if n < 0 then 0 else n, 1
  {
    if n > 0 {
      BlockKeeps(w, m, b, true, s.Log(Attempt));
      var r := ExecBlock(w, m, b, true, s.Log(Attempt));
      AttemptKeeps(w, m, s, r.sig, r.st);
      assert r.st.trace[|s.trace|] == s.Log(Attempt).trace[|s.trace|];
      if (r.sig.Done? || r.sig.Stopped?) && !r.st.ok && r.st.outcome in RETRYABLE && n != 1 {
        AgainKeeps(w, m, b, n, s, r);
      } else if r.sig.Done? || r.sig.Stopped? {
        KeepsUnderSignal(w, m, s, r.sig, if r.st.ok then Done else Stopped, r.st);
      }
    }
  }

  /** An attempt that is rolled back, and the attempts after it. */
  lemma {:induction false} AgainKeeps(w: World, m: Macro, b: Block, n: int, s: State, failed: Result)
    requires n > 1 && failed == ExecBlock(w, m, b, true, s.Log(Attempt))
    requires Keeps(w, m, s.Log(Attempt), failed.sig, failed.st) && (failed.sig.Done? || failed.sig.Stopped?)
    ensures var back := failed.st.(ok := s.ok, outcome := s.outcome).Log(RolledBack(|s.trace|));
            var r := ExecRetry(w, m, b, n - 1, back);
            && Keeps(w, m, s, r.sig, r.st)
            && |s.trace| < |r.st.trace| && r.st.trace[|s.trace|].Attempt?
    decreases b, 1, n, 0
  {
    var back := failed.st.(ok := s.ok, outcome := s.outcome).Log(RolledBack(|s.trace|));
    RetryKeeps(w, m, b, n - 1, back);
    var r := ExecRetry(w, m, b, n - 1, back);
    RetryChainKeeps(w, m, s, failed.sig, failed.st, r.sig, r.st);
    assert r.st.trace[|s.trace|] == back.trace[|s.trace|] == failed.st.trace[|s.trace|]
           == s.Log(Attempt).trace[|s.trace|];
  }

  // ---------------------------------------------------------------- theorems about whole runs

  /** A run that ends by no exception answers ok exactly when each of its failures lies inside a
      retry attempt that was rolled back; `steps_run` counts every action, rolled back or not, but
      one that raised; the outcome is "ok" exactly for ok runs if no error code is "ok"; and the
      outcome that a failed run reports is the code of the latest failure not rolled back. */
  lemma RunAccounting(w: World, m: Macro, actions: seq<Step>)
    ensures var r := Run(w, m, actions);
            && (EnvelopeOf(r).OkEnvelope? <==> !r.sig.Cancelled? && !r.sig.Fault? && AllErased(r.st.trace))
            && Actions(r.st.trace) == r.st.stepsRun + (if r.sig == Signal.Fault(ActionRaised) then 1 else 0)
            && (r.st.ok ==> r.st.outcome == "ok")
            && (HonestCodes(w) ==> (r.st.ok <==> r.st.outcome == "ok"))
            && (!r.st.ok ==> Blames(r.st.trace, r.st.outcome))
            && (EnvelopeOf(r).FailedEnvelope? ==> Blames(r.st.trace, EnvelopeOf(r).outcome))
            && (EnvelopeOf(r).Raised? <==> r.sig.Fault?) && (r.sig.Fault? ==> EnvelopeOf(r).fault == r.sig.fault)
  {
    StepsKeep(w, m, actions, INITIAL);
  }

  /** Every roll-back undoes one attempt of the trace and is followed at once by another attempt. */
  lemma RollBacksAreRetried(w: World, m: Macro, actions: seq<Step>, k: nat)
    requires var trace := Run(w, m, actions).st.trace; k < |trace| && trace[k].RolledBack?
    ensures var trace := Run(w, m, actions).st.trace;
            && trace[k].start < k && trace[trace[k].start].Attempt?
            && k + 1 < |trace| && trace[k + 1].Attempt?
  {
    StepsKeep(w, m, actions, INITIAL);
    var r := Run(w, m, actions);
    assert EventSound(w, m, INITIAL, r.sig, r.st, k);
  }

  /** A record that is not ok when a list of steps is entered is not ok when it is left. */
  lemma FailureSticks(w: World, m: Macro, steps: seq<Step>, s: State)
    requires !s.ok
    ensures !ExecSteps(w, m, steps, s).st.ok
  {
    StepsKeep(w, m, steps, s);
  }

  /** Hence a retry entered after a tolerated failure never leaves normally: even an attempt whose
      steps all succeed counts as failed, and the retry ends by an exception. */
  lemma RetryAfterFailureNeverSucceeds(w: World, m: Macro, b: Block, n: int, s: State)
    requires !s.ok && n > 0
    ensures !ExecRetry(w, m, b, n, s).sig.Done?
    decreases n
  {
    BlockKeeps(w, m, b, true, s.Log(Attempt));
    var r := ExecBlock(w, m, b, true, s.Log(Attempt));
    if (r.sig.Done? || r.sig.Stopped?) && !r.st.ok && r.st.outcome in RETRYABLE && n != 1 {
      var back := r.st.(ok := s.ok, outcome := s.outcome).Log(RolledBack(|s.trace|));
      RetryAfterFailureNeverSucceeds(w, m, b, n - 1, back);
    }
  }

  /** Attempts at the body end without a lookup error or a refusal and leave the record alone. */
  ghost predicate LeavesRecord(w: World, m: Macro, b: Block) {
    forall s ::
      var r := ExecBlock(w, m, b, true, s);
      (r.sig.Done? || r.sig.Stopped?) && r.st.ok == s.ok && r.st.outcome == s.outcome
  }

  /** A retry of such a body succeeds exactly when nothing had failed before it. */
  lemma {:induction false} QuietRetryExact(w: World, m: Macro, b: Block, n: int, s: State)
    requires LeavesRecord(w, m, b) && n > 0
    ensures ExecRetry(w, m, b, n, s).sig.Done? <==> s.ok
    decreases n
  {
    var r := ExecBlock(w, m, b, true, s.Log(Attempt));
    if !s.ok {
      RetryAfterFailureNeverSucceeds(w, m, b, n, s);
    }
  }

  lemma WaitLeavesRecord(w: World, m: Macro)
    requires forall t: nat :: !w.cancelled(t)
    ensures LeavesRecord(w, m, Block([Leaf(Wait)]))
  {
    forall s
      ensures var r := ExecBlock(w, m, Block([Leaf(Wait)]), true, s);
              r.sig.Done? && r.st.ok == s.ok && r.st.outcome == s.outcome
    {
      var waited := s.Ask().Log(Began(s.tick));
      assert [Leaf(Wait)][1..] == [];
      assert ExecStep(w, m, Leaf(Wait), waited) == Result(Done, waited);
      assert ExecSteps(w, m, [], waited) == Result(Done, waited);
    }
  }

  /** A verb that is mapped to an action, with the keys its mapping reads. */
  predicate IsMapped(step: Step) {
    step.kind.Verb? && MappingFault(step).None?
  }

  /** A document that gets there: the action fails inside a `try`, which tolerates it, and the
      `retry` of a wait then ends the macro, whatever the code of the failure. */
  lemma ToleratedFailureEndsRetry(w: World, m: Macro, act: Step, code: string)
    requires IsMapped(act)
    requires forall t: nat :: !w.cancelled(t) && w.gate(t).Allow? && w.device(t) == ErrorReply(code)
    ensures var doc := [Leaf(Try).(doSteps := Block([act])), Leaf(Retry).(doSteps := Block([Leaf(Wait)])), act];
            var r := Run(w, m, doc);
            r.sig.Stopped? && EnvelopeOf(r) == FailedEnvelope(code) && r.st.stepsRun == 1
  {
    var tried, wait := Leaf(Try).(doSteps := Block([act])), Leaf(Retry).(doSteps := Block([Leaf(Wait)]));
    var doc := [tried, wait, act];
    var begun := INITIAL.Ask().Log(Began(0));
    var failed := TriedActionFails(w, m, act, code, begun);
    var second := failed.Ask().Log(Began(failed.tick));
    WaitsLeaveFailure(w, m, 3, second);
    assert doc[1..] == [wait, act];
    assert ExecSteps(w, m, doc[1..], failed) == ExecStep(w, m, wait, second);
  }

  lemma TriedActionFails(w: World, m: Macro, act: Step, code: string, s: State) returns (failed: State)
    requires IsMapped(act)
    requires forall t: nat :: !w.cancelled(t) && w.gate(t).Allow? && w.device(t) == ErrorReply(code)
    ensures ExecStep(w, m, Leaf(Try).(doSteps := Block([act])), s) == Result(Done, failed)
    ensures !failed.ok && failed.outcome == code && failed.stepsRun == s.stepsRun + 1
  {
    var inner := s.Ask().Log(Began(s.tick));
    var r := ExecAction(w, m, act, inner);
    assert r.sig.Stopped? && !r.st.ok && r.st.outcome == code && r.st.stepsRun == s.stepsRun + 1;
    assert ExecStep(w, m, act, inner) == r;
    assert ExecSteps(w, m, [act], s) == r;
    failed := r.st;
  }

  lemma {:induction false} WaitsLeaveFailure(w: World, m: Macro, n: int, s: State)
    requires n > 0 && !s.ok && forall t: nat :: !w.cancelled(t)
    ensures var r := ExecRetry(w, m, Block([Leaf(Wait)]), n, s);
            r.sig.Stopped? && !r.st.ok && r.st.outcome == s.outcome && r.st.stepsRun == s.stepsRun
    decreases n
  {
    var begun := s.Log(Attempt);
    var waited := begun.Ask().Log(Began(begun.tick));
    assert [Leaf(Wait)][1..] == [];
    assert ExecSteps(w, m, [], waited) == Result(Done, waited);
    assert ExecSteps(w, m, [Leaf(Wait)], begun) == Result(Done, waited);
    if s.outcome in RETRYABLE && n != 1 {
      WaitsLeaveFailure(w, m, n - 1, waited.(ok := s.ok, outcome := s.outcome).Log(RolledBack(|s.trace|)));
    }
  }

  /** A `stop` inside a `try` ends neither the macro nor the list around the `try`: the action after
      it is performed. */
  lemma StopInsideTryGoesOn(w: World, m: Macro, act: Step)
    requires IsMapped(act) && forall t: nat :: !w.cancelled(t) && w.gate(t).Allow?
    ensures var doc := [Leaf(Try).(doSteps := Block([Leaf(Stop)])), act];
            exists t :: Acted(t) in Run(w, m, doc).st.trace
  {
    var guard := Leaf(Try).(doSteps := Block([Leaf(Stop)]));
    var doc := [guard, act];
    var begun := INITIAL.Ask().Log(Began(0));
    var halted := begun.Ask().Log(Began(1)).Log(Halted);
    assert ExecSteps(w, m, [Leaf(Stop)], begun) == Result(Stopped, halted);
    assert ExecStep(w, m, guard, begun) == Result(Done, halted);
    assert doc[1..] == [act];
    var next := halted.Ask().Log(Began(halted.tick));
    var called := next.Ask().Ask().Log(Acted(next.tick));
    assert called.trace[|called.trace| - 1] == Acted(next.tick);
    var last := Act(w, next.tick, next.Ask());
    assert ExecStep(w, m, act, next) == last;
    assert called.trace <= last.st.trace;
    OneStepList(w, m, act, halted);
    assert Run(w, m, doc).st.trace[|called.trace| - 1] == Acted(next.tick);
  }

  /** A list of one step ends like the step. */
  lemma OneStepList(w: World, m: Macro, step: Step, s: State)
    requires !w.cancelled(s.tick)
    ensures ExecSteps(w, m, [step], s) == ExecStep(w, m, step, s.Ask().Log(Began(s.tick)))
  {
    var r := ExecStep(w, m, step, s.Ask().Log(Began(s.tick)));
    assert [step][1..] == [] && ExecSteps(w, m, [], r.st) == Result(Done, r.st);
  }

  /** A token that is set stays set. */
  ghost predicate TokenIsOneWay(w: World) {
    forall t, t' :: t <= t' && w.cancelled(t) ==> w.cancelled(t')
  }

  /** Once the token is set no step begins anywhere in the run, and the only action still to come
      is that of the step that began just before. */
  lemma NothingBeginsOnceCancelled(w: World, m: Macro, actions: seq<Step>, c: nat, k: nat)
    requires TokenIsOneWay(w) && w.cancelled(c)
    requires k < |Run(w, m, actions).st.trace|
    ensures match Run(w, m, actions).st.trace[k]
            case Began(t) => t < c
            case Acted(t) => t <= c
            case _ => true
  {
    StepsKeep(w, m, actions, INITIAL);
    var r := Run(w, m, actions);
    assert EventSound(w, m, INITIAL, r.sig, r.st, k);
    if r.st.trace[k].Acted? {
      assert EventSound(w, m, INITIAL, r.sig, r.st, k - 1);
    }
  }

  /** A run answers "cancelled" exactly when some step was due while the token was set, and that
      refusal is the last thing that happens: no `try`, `retry` or `finally` goes on after it. */
  lemma CancelledExactlyWhenRefused(w: World, m: Macro, actions: seq<Step>)
    ensures var r := Run(w, m, actions);
            && (EnvelopeOf(r).CancelledEnvelope? <==> exists k: nat :: k < |r.st.trace| && r.st.trace[k].Refused?)
            && (forall k: nat | k < |r.st.trace| && r.st.trace[k].Refused? :: k == |r.st.trace| - 1)
  {
    StepsKeep(w, m, actions, INITIAL);
    var r := Run(w, m, actions);
    forall k: nat | k < |r.st.trace| && r.st.trace[k].Refused?
      ensures r.sig.Cancelled? && k == |r.st.trace| - 1
    {
      assert EventSound(w, m, INITIAL, r.sig, r.st, k);
    }
  }

  // ---------------------------------------------------------------- laws of programs

  function Repeated(steps: seq<Step>, n: nat): seq<Step> {
    if n == 0 then [] else steps + Repeated(steps, n - 1)
  }

  /** A list of steps does what its parts do one after the other. */
  lemma {:induction false} SequencesCompose(w: World, m: Macro, a: seq<Step>, b: seq<Step>, s: State)
    ensures var r := ExecSteps(w, m, a, s);
            ExecSteps(w, m, a + b, s) == if r.sig.Done? then ExecSteps(w, m, b, r.st) else r
    decreases |a|
  {
    if a == [] {
      assert a + b == b;
    } else {
      assert (a + b)[0] == a[0] && (a + b)[1..] == a[1..] + b;
      if !w.cancelled(s.tick) {
        var r := ExecStep(w, m, a[0], s.Ask().Log(Began(s.tick)));
        if r.sig.Done? {
          SequencesCompose(w, m, a[1..], b, r.st);
        }
      }
    }
  }

  /** A `for_each` over `n` items, and a `loop` without a condition, do exactly what their body
      written out `n` times does, exceptions and cancellation included. */
  lemma {:induction false} RepetitionUnrolls(w: World, m: Macro, body: seq<Step>, n: nat, s: State)
    ensures ExecItems(w, m, Block(body), n, s) == ExecSteps(w, m, Repeated(body, n), s)
    ensures ExecLoop(w, m, Block(body), false, n, s) == ExecSteps(w, m, Repeated(body, n), s)
  {
    if n > 0 {
      SequencesCompose(w, m, body, Repeated(body, n - 1), s);
      var r := ExecSteps(w, m, body, s);
      if r.sig.Done? {
        RepetitionUnrolls(w, m, body, n - 1, r.st);
      }
    }
  }

  // ---------------------------------------------------------------- the gate

  /** The risk the gate acts on: "low" when the classifier raises. */
  function GateRisk(w: World, t: nat): Risk {
    if w.classified(t).Some? then w.classified(t).value else Low
  }

  ghost predicate ActsAt(w: World, m: Macro, actions: seq<Step>, t: nat) {
    Acted(t) in Run(w, m, actions).st.trace
  }

  lemma ActsOnlyIfPermitted(w: World, m: Macro, actions: seq<Step>, t: nat)
    requires ActsAt(w, m, actions, t)
    ensures Permitted(w, m, t)
  {
    StepsKeep(w, m, actions, INITIAL);
    var r := Run(w, m, actions);
    var k :| 0 <= k < |r.st.trace| && r.st.trace[k] == Acted(t);
    assert EventSound(w, m, INITIAL, r.sig, r.st, k);
  }

  /** Whatever the nesting, an action of an unattended run is below critical risk, its macro does
      not demand confirmation, and the ledger as it stands at that very action holds a grant to
      the macro that reaches the risk, was not ended by a later row and has not expired. */
  lemma UnattendedActionsAreGranted(w: World, m: Macro, actions: seq<Step>, t: nat)
    requires m.unattended && UsesDefaultGate(w, m) && ActsAt(w, m, actions, t)
    ensures !GateRisk(w, t).Critical? && !m.requireConfirm
    ensures A.Covered(w.ledger(t), w.clock(t), m.name, GateRisk(w, t))
  {
    ActsOnlyIfPermitted(w, m, actions, t);
    A.DecideExact(m.name, m.requireConfirm, GateRisk(w, t), w.ledger(t), w.clock(t));
    assert w.gate(t) == DefaultGate(w, m, t);
  }

  /** When exactly the default gate lets an action of an unattended run through, on the rows of the
      ledger and the clock as they stand at that action. */
  lemma UnattendedGateExact(w: World, m: Macro, t: nat)
    requires UsesDefaultGate(w, m) && m.unattended
    ensures w.gate(t).Allow? <==>
              && !GateRisk(w, t).Critical? && !m.requireConfirm
              && exists i: nat ::
                   && A.Standing(w.ledger(t), i) && w.ledger(t)[i].macro == m.name
                   && (w.ledger(t)[i].expiresAt.None? || w.clock(t) < w.ledger(t)[i].expiresAt.value)
                   && A.Suffices(w.ledger(t)[i].maxRisk, GateRisk(w, t))
    ensures w.gate(t).Deny? <==> GateRisk(w, t).Critical? && !A.Covered(w.ledger(t), w.clock(t), m.name, Critical)
  {
    A.DecideExact(m.name, m.requireConfirm, GateRisk(w, t), w.ledger(t), w.clock(t));
    assert w.gate(t) == DefaultGate(w, m, t);
    if A.Covered(w.ledger(t), w.clock(t), m.name, GateRisk(w, t)) {
      var i: nat :| A.Standing(w.ledger(t), i)
                    && A.CoversRow(w.ledger(t)[i], w.clock(t), m.name, GateRisk(w, t));
      assert A.Standing(w.ledger(t), i);
    }
  }

  /** In an attended run the default gate asks for no confirmation of its own: it lets an action
      through exactly if it is not critical or a critical grant stands. */
  lemma AttendedGateExact(w: World, m: Macro, t: nat)
    requires UsesDefaultGate(w, m) && !m.unattended
    ensures !w.gate(t).Confirm?
    ensures w.gate(t).Allow? <==> !GateRisk(w, t).Critical? || A.Covered(w.ledger(t), w.clock(t), m.name, Critical)
  {
    A.DecideExact(m.name, m.requireConfirm, GateRisk(w, t), w.ledger(t), w.clock(t));
    assert w.gate(t) == DefaultGate(w, m, t);
  }

  /** So with a standing critical grant an attended run calls `run_action` for a critical action,
      and nothing the user might answer has any part in it.  (What `run_action` does with a critical
      action is decided by its own policy.) */
  lemma CriticalActsUnasked(w: World, m: Macro, act: Step, answers: nat -> bool)
    requires IsMapped(act) && UsesDefaultGate(w, m) && !m.unattended && !w.cancelled(0)
    requires GateRisk(w, 1).Critical? && A.Covered(w.ledger(1), w.clock(1), m.name, Critical)
    ensures Acted(1) in Run(w, m, [act]).st.trace
    ensures Run(w.(confirms := answers), m, [act]) == Run(w, m, [act])
  {
    var w' := w.(confirms := answers);
    AttendedGateExact(w, m, 1);
    OneStepList(w, m, act, INITIAL);
    OneStepList(w', m, act, INITIAL);
    var r := Act(w, 1, INITIAL.Ask().Log(Began(0)).Ask());
    assert Act(w', 1, INITIAL.Ask().Log(Began(0)).Ask()) == r;
    assert r.st.trace[1] == Acted(1);
  }

  /** In any run, attended ones included, a critical action needs a standing critical grant. */
  lemma CriticalActionsAreGranted(w: World, m: Macro, actions: seq<Step>, t: nat)
    requires UsesDefaultGate(w, m) && ActsAt(w, m, actions, t) && GateRisk(w, t).Critical?
    ensures !m.unattended && A.Covered(w.ledger(t), w.clock(t), m.name, Critical)
  {
    ActsOnlyIfPermitted(w, m, actions, t);
    A.DecideExact(m.name, m.requireConfirm, Critical, w.ledger(t), w.clock(t));
    assert w.gate(t) == DefaultGate(w, m, t);
  }

  ghost predicate AppendOnly(w: World) {
    forall t: nat, t': nat :: t <= t' ==> w.ledger(t) <= w.ledger(t')
  }

  /** The row is a standing grant that covers the action asked about at tick `t`. */
  ghost predicate RestsOn(w: World, m: Macro, t: nat, i: nat) {
    A.Standing(w.ledger(t), i) && A.CoversRow(w.ledger(t)[i], w.clock(t), m.name, GateRisk(w, t))
  }

  /** A revoke takes effect at the very next action: if the ledger holds a revoke of the macro by
      tick `t0`, every later action of an unattended run rests on a standing grant of sufficient
      risk that was appended after it. */
  lemma RevokeIsImmediate(w: World, m: Macro, actions: seq<Step>, t0: nat, k: nat, t: nat)
    requires m.unattended && UsesDefaultGate(w, m) && AppendOnly(w) && m.name != ""
    requires k < |w.ledger(t0)| && w.ledger(t0)[k].Revoke? && w.ledger(t0)[k].revokedMacro == m.name
    requires t0 <= t && ActsAt(w, m, actions, t)
    ensures exists i: nat :: k < i && RestsOn(w, m, t, i)
  {
    UnattendedActionsAreGranted(w, m, actions, t);
    assert w.ledger(t0) <= w.ledger(t);
    var i := A.RevokeSilences(w.ledger(t), k, w.clock(t), m.name, GateRisk(w, t));
    assert RestsOn(w, m, t, i);
  }

  /** The same for a revoke of one grant: every later action rests on another grant, or on one
      appended under the same id after the revoke. */
  lemma RevokeOfGrantIsImmediate(w: World, m: Macro, actions: seq<Step>, t0: nat, k: nat, t: nat)
    requires m.unattended && UsesDefaultGate(w, m) && AppendOnly(w)
    requires k < |w.ledger(t0)| && w.ledger(t0)[k].Revoke? && w.ledger(t0)[k].revokedId != ""
    requires t0 <= t && ActsAt(w, m, actions, t)
    ensures exists i: nat :: RestsOn(w, m, t, i) && (k < i || w.ledger(t)[i].id != w.ledger(t0)[k].revokedId)
  {
    UnattendedActionsAreGranted(w, m, actions, t);
    assert w.ledger(t0) <= w.ledger(t);
    var i := A.RevokeOfGrantSilences(w.ledger(t), k, w.clock(t), m.name, GateRisk(w, t));
    assert RestsOn(w, m, t, i);
  }
}
