/** Macro documents and their validator. */
module MacroSyntax {
  import opened Common

  datatype PhoneVerb =
    | Tap | TypeText | SetText | Swipe | ScrollUntil | Launch | PressKey | Intent
    | ClipboardRead | ClipboardWrite | ClipboardClear | NotificationReply | NotificationDismiss

  datatype Kind =
    | Verb(verb: PhoneVerb)
    | Stop | SetVar | Wait | AuditNote
    | If | Switch | ForEach | Loop | Retry | Try | Confirm | Race
    | Unknown(name: string)   // any other type string

  /** Keys of a step whose value is not a list of steps. */
  datatype Key = ConditionKey | InKey | AsKey | OnKey | VarKey | CasesKey | PackageKey | KeycodeKey

  /** One step.  Every key is optional in a document, whatever the step's type. */
  datatype Step = Step(
    kind: Kind,
    keys: set<Key>,
    thenSteps: Block,
    elseSteps: Block,
    doSteps: Block,
    finallySteps: Block,
    cases: seq<Case>,
    defaultSteps: Block,
    literalItems: Option<nat>,     // Some(n): `in` is a literal list of n items; None: a variable
    whileGiven: bool,
    maxIterations: Option<int>,
    maxAttempts: Option<int>)

  /** A nested list of steps under an optional key. */
  datatype Block = Absent | Block(steps: seq<Step>)

  datatype Case = Case(key: string, body: seq<Step>)

  /** A step with nothing but its type. */
  function Leaf(kind: Kind): Step {
    Step(kind, {}, Absent, Absent, Absent, Absent, [], Absent, None, false, None, None)
  }

  // ---------------------------------------------------------------- the validator

  datatype Error = UnknownStepType(name: string) | LacksSubkey(kind: Kind, key: string)

  /** Sub-keys the validator demands of a step, paired with whether the step has them. */
  function RequiredSubkeys(s: Step): seq<(string, bool)> {
    match s.kind
    case If => [("condition", ConditionKey in s.keys), ("then", s.thenSteps.Block?)]
    case ForEach => [("in", InKey in s.keys), ("as", AsKey in s.keys), ("do", s.doSteps.Block?)]
    case Loop | Retry | Try => [("do", s.doSteps.Block?)]
    case Switch => [("on", OnKey in s.keys), ("cases", CasesKey in s.keys)]
    case _ => []
  }

  function MissingErrors(kind: Kind, required: seq<(string, bool)>): seq<Error> {
    if required == [] then []
    else (if required[0].1 then [] else [LacksSubkey(kind, required[0].0)]) + MissingErrors(kind, required[1..])
  }

  function ListErrors(steps: seq<Step>): seq<Error>
    decreases steps, 0
  {
    if steps == [] then [] else StepErrors(steps[0]) + ListErrors(steps[1..])
  }

  function CaseErrors(cases: seq<Case>): seq<Error>
    decreases cases, 0
  {
    if cases == [] then [] else ListErrors(cases[0].body) + CaseErrors(cases[1..])
  }

  function BlockErrors(b: Block): seq<Error>
    decreases b, 0
  {
    match b
    case Absent => []
    case Block(steps) => ListErrors(steps)
  }

  /** `finally` is not among the nested lists the validator visits. */
  function StepErrors(s: Step): seq<Error>
    decreases s, 1
  {
    if s.kind.Unknown? then [UnknownStepType(s.kind.name)]
    else
      MissingErrors(s.kind, RequiredSubkeys(s))
      + BlockErrors(s.thenSteps)
      + BlockErrors(s.elseSteps)
      + BlockErrors(s.doSteps)
      + (if s.kind.Switch? then CaseErrors(s.cases) + BlockErrors(s.defaultSteps) else [])
  }

  lemma AppendTwice(a: seq<Error>, b: seq<Error>, c: seq<Error>)
    ensures a + b + c == a + (b + c)
  {
  }

  /** The validator as the source runs it: a recursive walk that appends to one shared list. */
  class Validator {
    var errs: seq<Error>

    constructor ()
      ensures errs == []
    {
      errs := [];
    }

    method ValidateSteps(steps: seq<Step>)
      modifies this
      ensures errs == old(errs) + ListErrors(steps)
      decreases steps, 0
    {
      for n := 0 to |steps|
        invariant errs + ListErrors(steps[n..]) == old(errs) + ListErrors(steps)
      {
        label before:
        var step := steps[n];
        assert steps[n..][1..] == steps[n + 1..];
        ValidateStep(step);
        assert errs + ListErrors(steps[n + 1..]) == old@before(errs) + ListErrors(steps[n..]);
      }
    }

    method ValidateStep(step: Step)
      modifies this
      ensures errs == old(errs) + StepErrors(step)
      decreases step, 1
    {
      if step.kind.Unknown? {
        errs := errs + [UnknownStepType(step.kind.name)];
        return;
      }
      ghost var before := errs;
      RequireSubkeys(step);
      ghost var found := MissingErrors(step.kind, RequiredSubkeys(step));
      ValidateIfGiven(step.thenSteps);
      AppendTwice(before, found, BlockErrors(step.thenSteps));
      found := found + BlockErrors(step.thenSteps);
      ValidateIfGiven(step.elseSteps);
      AppendTwice(before, found, BlockErrors(step.elseSteps));
      found := found + BlockErrors(step.elseSteps);
      ValidateIfGiven(step.doSteps);
      AppendTwice(before, found, BlockErrors(step.doSteps));
      found := found + BlockErrors(step.doSteps);
      assert errs == before + found;
      if step.kind.Switch? {
        ValidateCases(step.cases);
        AppendTwice(before, found, CaseErrors(step.cases));
        ValidateIfGiven(step.defaultSteps);
        AppendTwice(before, found + CaseErrors(step.cases), BlockErrors(step.defaultSteps));
        AppendTwice(found, CaseErrors(step.cases), BlockErrors(step.defaultSteps));
      }
    }

    method RequireSubkeys(step: Step)
      modifies this
      ensures errs == old(errs) + MissingErrors(step.kind, RequiredSubkeys(step))
    {
      var required := RequiredSubkeys(step);
      for k := 0 to |required|
        invariant errs + MissingErrors(step.kind, required[k..]) == old(errs) + MissingErrors(step.kind, required)
      {
        assert required[k..][1..] == required[k + 1..];
        if !required[k].1 {
          errs := errs + [LacksSubkey(step.kind, required[k].0)];
        }
      }
    }

    method ValidateIfGiven(b: Block)
      modifies this
      ensures errs == old(errs) + BlockErrors(b)
      decreases b, 0
    {
      if b.Block? {
        ValidateSteps(b.steps);
      }
    }

    method ValidateCases(cases: seq<Case>)
      modifies this
      ensures errs == old(errs) + CaseErrors(cases)
      decreases cases, 0
    {
      for n := 0 to |cases|
        invariant errs + CaseErrors(cases[n..]) == old(errs) + CaseErrors(cases)
      {
        label before:
        var c := cases[n];
        assert cases[n..][1..] == cases[n + 1..];
        ValidateSteps(c.body);
        assert errs + CaseErrors(cases[n + 1..]) == old@before(errs) + CaseErrors(cases[n..]);
      }
    }
  }

  // ---------------------------------------------------------------- what validity means

  /** A sub-key that a step of its type needs, by its name in documents, and that it lacks. */
  predicate Lacks(s: Step, key: string) {
    || (key == "condition" && s.kind.If? && ConditionKey !in s.keys)
    || (key == "then" && s.kind.If? && s.thenSteps.Absent?)
    || (key == "in" && s.kind.ForEach? && InKey !in s.keys)
    || (key == "as" && s.kind.ForEach? && AsKey !in s.keys)
    || (key == "do" && (s.kind.ForEach? || s.kind.Loop? || s.kind.Retry? || s.kind.Try?) && s.doSteps.Absent?)
    || (key == "on" && s.kind.Switch? && OnKey !in s.keys)
    || (key == "cases" && s.kind.Switch? && CasesKey !in s.keys)
  }

  /** A step that neither is of unknown type nor lacks a sub-key its type needs. */
  predicate LocallySound(s: Step) {
    && !s.kind.Unknown?
    && (s.kind.If? ==> ConditionKey in s.keys && s.thenSteps.Block?)
    && (s.kind.ForEach? ==> InKey in s.keys && AsKey in s.keys && s.doSteps.Block?)
    && (s.kind.Loop? || s.kind.Retry? || s.kind.Try? ==> s.doSteps.Block?)
    && (s.kind.Switch? ==> OnKey in s.keys && CasesKey in s.keys)
  }

  /** Sound all the way down, the `finally` lists of `try` steps included when `deep`. */
  predicate Sound(s: Step, deep: bool)
    decreases s, 1
  {
    && LocallySound(s)
    && (s.thenSteps.Block? ==> AllSound(s.thenSteps.steps, deep))
    && (s.elseSteps.Block? ==> AllSound(s.elseSteps.steps, deep))
    && (s.doSteps.Block? ==> AllSound(s.doSteps.steps, deep))
    && (deep && s.kind.Try? && s.finallySteps.Block? ==> AllSound(s.finallySteps.steps, deep))
    && (s.kind.Switch? ==>
          && (forall c | c in s.cases :: AllSound(c.body, deep))
          && (s.defaultSteps.Block? ==> AllSound(s.defaultSteps.steps, deep)))
  }

  predicate AllSound(steps: seq<Step>, deep: bool)
    decreases steps, 0
  {
    forall s | s in steps :: Sound(s, deep)
  }

  lemma {:induction false} MissingErrorsExact(kind: Kind, required: seq<(string, bool)>)
    ensures MissingErrors(kind, required) == [] <==> forall r <- required :: r.1
  {
    if required != [] {
      MissingErrorsExact(kind, required[1..]);
      assert forall r :: r in required <==> r == required[0] || r in required[1..];
    }
  }

  lemma RequiredGiven(s: Step)
    requires !s.kind.Unknown?
    ensures (forall r <- RequiredSubkeys(s) :: r.1) <==> LocallySound(s)
  {
    var required := RequiredSubkeys(s);
    assert forall i | 0 <= i < |required| :: required[i] in required;
    if s.kind.If? || s.kind.Switch? {
      assert required[0] in required && required[1] in required;
    } else if s.kind.ForEach? {
      assert required[0] in required && required[1] in required && required[2] in required;
    } else if s.kind.Loop? || s.kind.Retry? || s.kind.Try? {
      assert required[0] in required;
    }
  }

  lemma {:induction false} MissingErrorsNamed(kind: Kind, required: seq<(string, bool)>, e: Error)
    ensures e in MissingErrors(kind, required) <==>
              e.LacksSubkey? && e.kind == kind && (e.key, false) in required
  {
    if required != [] {
      MissingErrorsNamed(kind, required[1..], e);
      assert (required == [required[0]] + required[1..]);
    }
  }

  /** What the validator says of a step without nested lists: of an unknown type that it is, and
      otherwise which keys it lacks, each by its name. */
  lemma StepErrorsNamed(s: Step, e: Error)
    requires s.thenSteps.Absent? && s.elseSteps.Absent? && s.doSteps.Absent? && s.defaultSteps.Absent? && s.cases == []
    ensures e in StepErrors(s) <==>
              if s.kind.Unknown? then e == UnknownStepType(s.kind.name)
              else e.LacksSubkey? && e.kind == s.kind && Lacks(s, e.key)
  {
    if !s.kind.Unknown? {
      MissingErrorsNamed(s.kind, RequiredSubkeys(s), e);
      if e.LacksSubkey? {
        MissingIsLacking(s, e.key);
      }
    }
  }

  lemma MissingIsLacking(s: Step, key: string)
    ensures (key, false) in RequiredSubkeys(s) <==> Lacks(s, key)
  {
    match s.kind {
      case If => assert "condition"[0] == 'c' && "then"[0] == 't';
      case ForEach => assert "in"[0] == 'i' && "as"[0] == 'a' && "do"[0] == 'd';
      case Switch => assert "on"[0] == 'o' && "cases"[0] == 'c';
      case _ =>
    }
  }

  /** The validator reports nothing exactly for documents sound everywhere except perhaps inside
      `finally` lists. */
  lemma {:induction false} ValidationExact(steps: seq<Step>)
    ensures ListErrors(steps) == [] <==> AllSound(steps, false)
    decreases steps, 0
  {
    if steps != [] {
      StepValidationExact(steps[0]);
      ValidationExact(steps[1..]);
      assert forall s :: s in steps <==> s == steps[0] || s in steps[1..];
    }
  }

  lemma {:induction false} StepValidationExact(s: Step)
    ensures StepErrors(s) == [] <==> Sound(s, false)
    decreases s, 1
  {
    MissingErrorsExact(s.kind, RequiredSubkeys(s));
    if !s.kind.Unknown? { RequiredGiven(s); }
    if s.thenSteps.Block? { ValidationExact(s.thenSteps.steps); }
    if s.elseSteps.Block? { ValidationExact(s.elseSteps.steps); }
    if s.doSteps.Block? { ValidationExact(s.doSteps.steps); }
    if s.kind.Switch? {
      CaseValidationExact(s.cases);
      if s.defaultSteps.Block? { ValidationExact(s.defaultSteps.steps); }
    }
  }

  lemma {:induction false} CaseValidationExact(cases: seq<Case>)
    ensures CaseErrors(cases) == [] <==> forall c | c in cases :: AllSound(c.body, false)
    decreases cases, 0
  {
    if cases != [] {
      ValidationExact(cases[0].body);
      CaseValidationExact(cases[1..]);
      assert forall c :: c in cases <==> c == cases[0] || c in cases[1..];
    }
  }
}
