# droidjig in Dafny

droidjig drives a phone through small stateful protocols: a macro interpreter behind an autonomy
gate, a job queue, an action funnel with rate limits and replay, a reused socket, a numbering of the
screen's elements, an event pipeline, a scheduler, and a token that ties an action to the screen it
was reasoned over. This project models these protocols and proves what they keep over every run.

Each protocol has three layers: functions that say what one operation does, theorems about all runs
of those functions (each run is a sequence of steps in any order the code allows), and classes or
methods in the source's own imperative form whose `ensures` equate them with the functions, so that
the theorems hold of the code-shaped layer too.

| file | what it models |
|---|---|
| `Autonomy.dfy` | the grant ledger and the verdict drawn from it |
| `MacroSyntax.dfy` | macro documents and their validator |
| `MacroSemantics.dfy` | what a macro run does, over a world of oracle answers |
| `MacroEngine.dfy` | the interpreter with its mutable record, loops and unwinding |
| `MacroTheorems.dfy` | roll-back accounting, cancellation, permission |
| `MacroLaws.dfy` | what each construct does, as laws between lists of steps |
| `MacroBounds.dfy` | action bounds, and what validation guarantees |
| `MacroOutcomes.dfy` | an abstract interpreter: which ways a document can end, found on the document alone |
| `MacroLocality.dfy` | a run depends only on the answers it asks for, so runs in two worlds can be joined |
| `MacroEndings.dfy` | the abstract interpreter is exact; hence which errors a document can raise, and when `stop` ends a macro |
| `Jobs.dfy` | the job registry under any interleaving of its critical sections |
| `RateLimit.dfy` | the sliding-window limiter under the thread lock and the file lock |
| `Idempotency.dfy` | memory over disk, refined to one log |
| `Transport.dfy` | request delivery over a cached connection |
| `UiTree.dfy`, `UiRelations.dfy` | the two numberings, and the relation maps |
| `NativeTree.dfy` | printing native nodes and parsing them back |
| `NativeLaws.dfy` | what is printed and what is read, told on the text and the attributes themselves |
| `Pipeline.dfy` | device ring, poller, bus, trigger cursor |
| `FireLimits.dfy` | cooldown and hourly cap of macros, and the trigger manager's step |
| `Schedule.dfy` | next fire and the arming scheduler |
| `Generation.dfy` | the observation token |
| `Common.dfy` | `Option`, time and risk levels |

Everything the code asks of its surroundings (device calls, clocks, conditions, the user, the
network) is a parameter: a function of a tick, a script of outcomes, or an argument of a step. A
statement for all such parameters is a statement for every pattern of answers. Where a property
needs the clock not to run backwards, the model's `Legal` or `requires` says so.

What the model showed about the code, each with an input and the exact condition:

- A validated document can still end by an exception that nothing in the engine catches: through a
  `set` step without `var` (`MacroBounds.SetEscapesValidation`; `docs/macros.md:155` calls the key
  `variable`, which nothing reads), through a verb that is not mapped to an action or lacks the key
  its mapping reads (`MacroBounds.VerbEscapesValidation`), and through the `finally` list of a `try`
  (`MacroBounds.FinallyEscapesValidation`), none of which the validator looks at. Which exceptions a
  run can end by is decided on the document and the macro alone, exactly (`MacroEndings.ErrorsExact`),
  those raised while evaluating variables and conditions apart. Without these gaps the one exception
  left is one that `run_action` raises (`MacroBounds.CompleteDocumentsNeverFault`).
- An idempotency key does not keep a body from running twice if the body raises: nothing is stored
  then (`Idempotency.RaisingBodyRunsAgain`, a tap whose following observation fails, say). A keyed
  call runs its body exactly when no body of that key returned less than the time to live ago
  (`Idempotency.BodyRunsExactly`).
- A scheduled macro whose run raises is run again at the very next call, whatever its interval
  (`Schedule.RaisingRunIsRepeated`), and for as long as it raises the macros listed after it are
  neither armed nor run (`Schedule.RaisingRunStarvesOthers`, with a run in `Schedule.StarvedMacro`).
  A call raises exactly when a listed macro is due and its run raises, and then serves exactly the
  macros up to the first such one (`Schedule.DueIsPerMacro`).
- The generation check binds an action to the observed tree only up to the check: a mutation between
  the check and the action is missed (`Generation.LateMutationIsMissed`), and none other short of
  2^64 (`Generation.ActionsMeetTheObservedTreeExactly`).
- A `retry` of a body that leaves the record alone succeeds exactly when nothing had failed before
  it (`MacroTheorems.QuietRetryExact`), because an attempt is judged by the run's `ok` flag; after
  a failure that a `try` tolerated even the retry of a wait ends the macro
  (`MacroTheorems.ToleratedFailureEndsRetry`).
- `docs/macros.md:156` says that `stop` ends the macro at once. Inside a `try` it does not
  (`MacroTheorems.StopInsideTryGoesOn`): the code unwinds to the innermost `try` or `retry` and goes
  on. For which documents `stop` does end every run at once is exact in `MacroEndings.StopExact`;
  all documents without `try` and `retry` are among them (`MacroEndings.UncaughtIsLast`).
- `docs/macros.md:211` says that a critical action always asks. In an attended run the engine's gate
  never asks; it lets a critical action through to `run_action`, whose own policy decides next,
  exactly if a critical grant stands (`MacroTheorems.AttendedGateExact`, with a run in
  `MacroTheorems.CriticalActsUnasked`).
- Both ends of the 60-second window count. Records carry the time of admission, which is before the
  device call, so the window bound is one by admission time. It holds for all verbs; the limiter is
  exact for verbs not named like a shared bucket, and stricter than the limits for the others.

## Model

| member | source | states |
|---|---|---|
| Autonomy.ComputeLiveGrants | src/droidjig/macro/autonomy.py:18-30 | The one-pass loop over the ledger, with its in-place updates, computes the fold that the lemmas below are about. |
| Autonomy.LiveGrantsExact | src/droidjig/macro/autonomy.py:18-30 | A grant is live exactly when some row granted it, no later row revoked it by id or by macro or reused its id, and it has no expiry or the clock is before it. |
| Autonomy.DecideExact | src/droidjig/macro/autonomy.py:33-41 | The verdict in terms of the raw ledger: "allow" exactly for a non-critical action of a macro without `require_confirm` that a standing grant covers, one whose expiry is absent or still to come and whose risk level is low, medium, high or critical and not below the action's; "deny" exactly for a critical action without a standing critical grant. |
| Autonomy.RevokeSilences | src/droidjig/macro/autonomy.py:24-28 | A revoke of a macro silences every grant to it that comes before: an action covered nevertheless is covered by a standing, unexpired grant of sufficient rank appended after the revoke. |
| Autonomy.RevokeOfGrantSilences | src/droidjig/macro/autonomy.py:24-25 | After a revoke by id, what still covers an action is a standing grant of another id, or one appended after the revoke. |
| MacroSyntax.Validator.ValidateSteps | src/droidjig/macro/schema.py:35-58 | The recursive walk that appends to one shared list adds exactly the errors of the document, in order. |
| MacroSyntax.ValidationExact | src/droidjig/macro/schema.py:11-58 | The validator is silent exactly for documents in which every step outside `finally` lists, at any depth, has a known type and its required sub-keys. |
| MacroSyntax.StepErrorsNamed | src/droidjig/macro/schema.py:35-58 | What the validator reports of a step without nested lists: an unknown type by its name, and otherwise exactly the required keys it lacks, each by name. |
| MacroEngine.Engine.RunMacro | src/droidjig/macro/engine.py:67-89 | The interpreter's record and envelope after a run are those of the semantics. |
| MacroEngine.Engine.Steps | src/droidjig/macro/engine.py:102-106 | The step loop, which reads the token before each step and lets exceptions through, refines the semantics of lists. |
| MacroEngine.Engine.OneStep | src/droidjig/macro/engine.py:108-176 | Dispatch on the step type, with the lookup errors of missing keys, refines the semantics of steps. |
| MacroEngine.Engine.Action | src/droidjig/macro/engine.py:178-205 | Gate, confirmation, the mapping of the verb, `run_action` and counting refine the semantics of an action, with the exceptions of the mapping and of `run_action`. |
| MacroEngine.Engine.Retry | src/droidjig/macro/engine.py:228-242 | The attempt loop with its saved flag and outcome refines the recursive semantics of `retry`. |
| MacroTheorems.RunAccounting | src/droidjig/macro/engine.py:67-89 | A run that ends by no exception is ok exactly when each failure event lies inside a retry attempt that was rolled back; otherwise the outcome it reports is the code of the latest failure that was not; `steps_run` counts all calls of `run_action`, rolled-back ones included, but one that raised; `ok` holds iff the outcome is "ok" when no error code is "ok". |
| MacroTheorems.RollBacksAreRetried | src/droidjig/macro/engine.py:228-242 | Every roll-back undoes one attempt and is followed at once by another attempt. |
| MacroTheorems.FailureSticks | src/droidjig/macro/engine.py:160-166 | A record that is not ok on entry to any list of steps is not ok on exit, whatever `try` tolerates. |
| MacroTheorems.RetryAfterFailureNeverSucceeds | src/droidjig/macro/engine.py:228-242 | A `retry` with at least one attempt that is entered with `ok` false never ends normally, whatever its body. |
| MacroTheorems.QuietRetryExact | src/droidjig/macro/engine.py:228-242 | If attempts at the body end without error and leave `ok` and outcome alone (as a wait does: `MacroTheorems.WaitLeavesRecord`), a `retry` with at least one attempt ends normally exactly when it is entered with `ok` true. |
| MacroTheorems.ToleratedFailureEndsRetry | src/droidjig/macro/engine.py:160-166 | A document that gets there: a verb fails inside a `try`, and the `retry` of a wait after it ends the macro with that failure, before the next verb. |
| MacroTheorems.StopInsideTryGoesOn | src/droidjig/macro/engine.py:160-166 | A document in which the action after a `try` around a `stop` is performed. |
| MacroTheorems.NothingBeginsOnceCancelled | src/droidjig/macro/engine.py:102-106 | Once the token is set no step begins in any list, iteration, attempt or `finally`; the only action still possible is that of the step already begun. |
| MacroTheorems.CancelledExactlyWhenRefused | src/droidjig/macro/engine.py:76-84 | The envelope is "cancelled" exactly when a due step met a set token, and that refusal is the last event of the run. |
| MacroTheorems.UnattendedActionsAreGranted | src/droidjig/macro/engine.py:47-65 | In every unattended run with the default gate, each call of `run_action` is below critical risk, its macro has no `require_confirm`, and the ledger as it is at that call holds a standing, unexpired grant to the macro of at least that risk. |
| MacroTheorems.UnattendedGateExact | src/droidjig/macro/engine.py:47-65 | On the ledger's rows and the clock as they are at an action of an unattended run: the gate answers "allow" exactly if the action is not critical, the macro has no `require_confirm`, and some standing row of the macro has no expiry or one after the clock and a risk that suffices. |
| MacroTheorems.CriticalActionsAreGranted | src/droidjig/macro/autonomy.py:36-38 | In any run, attended ones included, a critical action needs a standing critical grant. |
| MacroTheorems.RevokeIsImmediate | src/droidjig/macro/engine.py:178-200 | With an append-only ledger, once a revoke of the macro is written every later action of an unattended run rests on a standing, unexpired grant of sufficient rank appended after it. |
| MacroTheorems.RevokeOfGrantIsImmediate | src/droidjig/macro/engine.py:178-200 | The same for a revoke by id: every later action rests on a standing grant of another id, or on one appended after the revoke. |
| MacroTheorems.AttendedGateExact | src/droidjig/macro/engine.py:59-65 | In an attended run the default gate never answers "confirm", and answers "allow" exactly if the action is not critical or a critical grant stands. |
| MacroTheorems.CriticalActsUnasked | src/droidjig/macro/engine.py:59-65 | A run in which `run_action` is called for a critical action and no answer of the user makes a difference. |
| MacroTheorems.SequencesCompose | src/droidjig/macro/engine.py:102-106 | A list of steps does what its parts do one after the other, unwinding and cancellation included. |
| MacroTheorems.RepetitionUnrolls | src/droidjig/macro/engine.py:139-156 | A `for_each` over n items and a `loop` without a condition do exactly what their body written out n times does. |
| MacroLaws.IfRuns | src/droidjig/macro/engine.py:129-133 | A list that begins with an `if` ends like its `then` list and the rest if the condition holds at the one tick it is asked, and otherwise like its `else` list (none if absent) and the rest. |
| MacroLaws.SwitchRuns | src/droidjig/macro/engine.py:134-138 | A list that begins with a `switch` ends like the list of the first case with the key asked for and the rest, or like `default` and the rest if no case has it. |
| MacroLaws.ForEachRuns | src/droidjig/macro/engine.py:139-148 | A list that begins with a `for_each` ends like its body written out once per item, of the literal list or of the variable, and the rest. |
| MacroLaws.LoopRuns | src/droidjig/macro/engine.py:149-156 | A list that begins with a `loop` without a condition ends like its body written out as often as it allows (100 times if it does not say) and the rest. |
| MacroLaws.GuardedLoopRuns | src/droidjig/macro/engine.py:149-156 | A `loop` with a condition asks it before each round; it goes on with the rest after as many rounds as it allows or when the condition first fails, and an exception of the body ends it. |
| MacroLaws.RetryRuns | src/droidjig/macro/engine.py:228-242 | A `retry` makes attempts (three if it does not say), each but the last ending in one of the four transient failures and rolled back to the flag and outcome before it; an ok last attempt goes on with the rest, a failed one ends by `_Stop` and was the last allowed or not transient, and other exceptions pass. |
| MacroLaws.TryRuns | src/droidjig/macro/engine.py:160-166 | A `try` goes on with `finally` and the rest from where its list ended, by itself or by `_Stop`; any other exception passes. |
| MacroLaws.ConfirmRuns | src/droidjig/macro/engine.py:167-173 | A `confirm` step asks the user once and goes on exactly if the answer is yes; otherwise the list ends with `confirmation_required`. |
| MacroLaws.MissingKeysRaise | src/droidjig/macro/engine.py:108-176 | A step of each kind that lacks a key the code subscripts ends the list with a lookup error, of the variable for `set`, and an unknown kind with the unsupported-step error. |
| MacroLaws.ActionRuns | src/droidjig/macro/engine.py:178-205 | Once let through, a mapped verb makes one call of `run_action`; an ok reply is counted and goes on with the rest, an error reply is counted and ends the list with its code, and an exception is not counted and passes. |
| MacroLaws.RefusalRuns | src/droidjig/macro/engine.py:178-205 | A verb not let through ends the list without a call: with `guarded_action` if the gate denies, with `confirmation_required` if it asks and the run is unattended or the user says no. |
| MacroBounds.RunWithinBound | src/droidjig/macro/engine.py:139-166 | No run calls `run_action` more often than a sum, product and maximum computed from the document, given a bound on the items of variables; interpretation terminates because the semantics does. |
| MacroBounds.DeepValidationExact | src/droidjig/macro/schema.py:19-58 | Sound everywhere, the `finally` lists of `try` steps included, is exactly: it validates and all those `finally` lists would. (Those of other steps are idle: `MacroBounds.IdleFinallyIsHarmless`.) |
| MacroBounds.ValidatedDocumentsAreSupported | src/droidjig/macro/engine.py:108-176 | If a document validates and the `finally` lists of its `try` steps would, no run in any world reaches the unsupported-step error or misses a required key. |
| MacroBounds.CompleteDocumentsNeverFault | src/droidjig/macro/engine.py:108-176 | If besides, at every depth, each `set` step names its variable and each verb is mapped and has the keys its mapping reads, the only exception a run can end by is one raised by `run_action`. |
| MacroBounds.SetEscapesValidation | src/droidjig/macro/engine.py:112-117 | A concrete document, without any `finally`, that validates and raises the lookup error of `set`. |
| MacroBounds.VerbEscapesValidation | src/droidjig/cli.py:37-65 | A document of one bare verb validates; once the gate lets it through it raises the mapping error for exactly seven verbs and the lookup error for exactly two. |
| MacroOutcomes.FewItemsSuffice | src/droidjig/macro/engine.py:139-148 | Whatever a `for_each` body can bring about over many items it can over nine or fewer, so the abstract interpreter need not know how many a variable holds. |
| MacroOutcomes.StepsForeseen | src/droidjig/macro/engine.py:102-176 | However a list of steps ends in a world with the default gate, by any exception or by cancellation too, the abstract interpreter foresees it: signal, health of the record, and whether a step began after a `stop`. |
| MacroLocality.StepsLocal | src/droidjig/macro/engine.py:102-176 | Two worlds that agree on the questions a run asks give the same run. |
| MacroEndings.OutcomesExact | src/droidjig/macro/engine.py:67-176 | The abstract interpreter is exact: a document run as a given macro can end in a way, by any exception or by cancellation included, exactly when some world with the macro's default gate brings it about. (No verb of an unattended macro with `require_confirm` ends otherwise than refused.) |
| MacroEndings.ErrorsExact | src/droidjig/macro/engine.py:108-176 | Some run raises a given exception, of a control step, of mapping a verb, or of `run_action`, exactly when the document and the macro alone show that a reachable step raises it. |
| MacroEndings.StopExact | src/droidjig/macro/engine.py:110-111 | In some run, cancelled or not, a step begins after a `stop` exactly when the document and the macro alone show an ending past a `stop`. |
| MacroEndings.CaughtStopGoesOn | src/droidjig/macro/engine.py:160-166 | Wherever a `stop` can unwind to the end of a `try` without `finally` or of a `retry`, from any depth, whatever follows can begin. |
| MacroEndings.UncaughtIsLast | src/droidjig/macro/engine.py:76-79 | In a document without `try` and `retry` at any depth, a `stop` or a failure is the last event of every run, and its exception reaches the run. |
| MacroBounds.FinallyEscapesValidation | src/droidjig/macro/schema.py:19 | A concrete document that validates and reaches the unsupported-step error through its `finally`. |
| Jobs.StepKeeps | src/droidjig/daemon/jobs.py:45-118 | Submitting, taking and finishing, in any order, keep the invariant of queue, table, keys and spacing. |
| Jobs.QueueIsExact | src/droidjig/daemon/jobs.py:45-109 | The queue is duplicate-free, within its bound, holds precisely the queued jobs, in submission order behind all started ones, and the lookup of the dequeued id never misses. |
| Jobs.KeysAreExact | src/droidjig/daemon/jobs.py:66-91 | A queued or running job with a key is present and its key points at it (so there is at most one), and every key points at a present job with that key. |
| Jobs.JobsAreSpaced | src/droidjig/daemon/jobs.py:66-91 | Each job starts at most once; a second job for a key is created no earlier than the finish of the first plus the time to live. |
| Jobs.SubmitIsExact | src/droidjig/daemon/jobs.py:45-79 | After any run a submission is answered by exactly that job of the whole history, swept ones included, that is under way for its key or finished within the time to live; without one it is refused exactly when the queue is full, and otherwise enqueued as a new queued job. |
| Jobs.StartIsExact | src/droidjig/daemon/jobs.py:98-109 | After any run the first half of `run_next` answers with the earliest submitted job not yet started, the one job it marks as running and logs last as started; it does so exactly if some job is queued, and otherwise answers nothing and changes nothing. |
| Jobs.SweepIsExact | src/droidjig/daemon/jobs.py:45-91 | After any run a submission leaves in the table exactly the new job and the jobs of the history that are under way or finished less than the time to live before its sweep, and the keys of exactly those. |
| Jobs.StepAdvances | src/droidjig/daemon/jobs.py:98-118 | A job's status only moves queued, running, done or error; it enters the start order exactly when it moves from queued to running; it ends exactly by its own finish, with that outcome and time; nothing submitted or started is forgotten. |
| Jobs.JobRegistry.SubmitJob | src/droidjig/daemon/jobs.py:45-64 | Sweep, dedupe, bound check and enqueue on the mutable tables are the submit transition. |
| Jobs.JobRegistry.SweepLocked | src/droidjig/daemon/jobs.py:81-91 | Dropping expired jobs one by one, with the keys that still point at them, leaves exactly the rest. |
| Jobs.JobRegistry.DedupeLocked | src/droidjig/daemon/jobs.py:66-79 | The early-return search answers like the specification. |
| Jobs.JobRegistry.RunNextStart | src/droidjig/daemon/jobs.py:98-109 | The first half of `run_next`, the lookup error included. |
| Jobs.JobRegistry.RunNextFinish | src/droidjig/daemon/jobs.py:114-118 | The second half, writing the record the runner holds, whether it is still in the table or not. |
| RateLimit.StepKeeps | src/droidjig/runtime.py:213-322 | Every step of every thread of every process keeps the locks exclusive, the saved history complete and the windows within their limits. |
| RateLimit.MutualExclusion | src/droidjig/runtime.py:213-222 | Over all interleavings at most one thread on the machine is between taking the file lock and leaving. |
| RateLimit.LocksGrantedExactly | src/droidjig/runtime.py:213-222 | A thread that asks gets its process's lock exactly if no thread of the process is past idling, and the file lock exactly if no thread on the machine is between taking it and leaving. |
| RateLimit.WindowBound | src/droidjig/runtime.py:275-313 | Over all interleavings, of the completed actions admitted in any closed 60 seconds at most `limits["high_risk"]` are of high or critical risk, at most `limits["global"]` are any actions, and at most `limits[v]` have the verb v, although history is pruned at every save. |
| RateLimit.CheckIsExact | src/droidjig/ratelimit.py:15-25 | When all verbs are ordinary ones, the check on the pruned history refuses exactly when some limited bucket of the action already has its limit of completed actions admitted in the window. |
| RateLimit.RefusesExactly | src/droidjig/ratelimit.py:15-25 | When all verbs are ordinary ones, the check refuses exactly if the limit on all actions, on the verb, or (for a high or critical action) on high-risk actions is used up by completed actions of the last closed 60 seconds, and it names the first of these that is. |
| RateLimit.AdmitsExactly | src/droidjig/runtime.py:275-313 | So an action is admitted exactly if none of its limits is used up, as asked for and at the time it was asked, and a save completes exactly the action admitted. |
| RateLimit.SharedNamesCountTwice | src/droidjig/ratelimit.py:5-9 | Why the check is exact for ordinary verbs only: one action of a verb named "global" counts as two in that bucket. |
| RateLimit.Funnel.CheckLimits | src/droidjig/runtime.py:275-294 | Prune, check and admit on the loaded history. |
| RateLimit.Funnel.SaveHistory | src/droidjig/runtime.py:311-313 | The loop that appends one record per bucket, and the save. |
| RateLimit.Funnel.AcquireFileLock | src/droidjig/runtime.py:61-75 | The non-blocking file lock, always granted where file locks are unsupported. |
| Idempotency.CacheRefinesLog | src/droidjig/runtime.py:154-190 | After any sequence of calls and restarts a keyed call replays exactly what the log answers, and otherwise ends like its body; the log grows by the envelope the body returned, and by nothing if it raised. |
| Idempotency.RestartIsInvisible | src/droidjig/runtime.py:34-58 | Restarting a process changes no answer of any process. |
| Idempotency.StepLeavesExactly | src/droidjig/runtime.py:34-58 | What each step leaves: a restart empties the memory of its process only; a replay or a raising body leaves the memory as the lookup did and the disk alone; a returned body leaves both tiers with their entries younger than the time to live and the new one; other processes' memories never change. |
| Idempotency.BodiesAreSpaced | src/droidjig/runtime.py:154-190 | After a body of a key that returned, none of that key begins within the time to live. |
| Idempotency.BodyRunsExactly | src/droidjig/runtime.py:154-190 | After any run, a keyed call of any process replays exactly when some body of that key returned less than the time to live ago, and runs its body otherwise. |
| Idempotency.RaisingBodyRunsAgain | src/droidjig/runtime.py:175-190 | Two calls under one key, at any times and by any processes, that both run their body, because the first raised. |
| Idempotency.Process.LookupKey | src/droidjig/runtime.py:34-47 | Lookup with its eviction and its refill from disk: it answers exactly from an entry younger than the time to live, memory before disk, keeps in memory the entry it answered from, and touches no other key. |
| Idempotency.Process.SweepCache | src/droidjig/runtime.py:14-17 | Deleting the expired keys one by one leaves exactly the entries younger than the time to live. |
| Idempotency.Process.StoreKey | src/droidjig/runtime.py:50-58 | Both tiers keep exactly their entries younger than the time to live, and get the new one. |
| Idempotency.Process.RunActionKeyed | src/droidjig/runtime.py:154-190 | The whole keyed call is a step of the protocol: replay without storing, run and store, or run and pass on the body's exception, with nothing stored; without a key neither tier is touched. |
| Transport.RequestIsAtMostOnce | src/droidjig/providers/transport.py:129-184 | Whatever fails, one request puts its line on the wire at most once, or twice if the method is read-only and a cached connection gave no reply; whatever is returned carries the request's id, and a reply is one that was read for it. |
| Transport.ReadStopsAtFirst | src/droidjig/providers/transport.py:172-184 | The first line that is neither garbage nor a reply to another request decides alone: it is the reply, the end of the stream or an error; without such a line there is no reply. |
| Transport.AnswersExactly | src/droidjig/providers/transport.py:129-170 | A request is answered exactly if its first send goes out and that connection yields the reply, or if the cached connection failed (in sending, or in answering a read-only method) and a second one yields it; the connection that carried the answer is the one cached. |
| Transport.FoundExactly | src/droidjig/providers/transport.py:172-184 | A read finds a reply, nothing, or an exception, and the first line that is not passed over decides which. |
| Transport.OutcomeExactly | src/droidjig/providers/transport.py:129-184 | A request is answered exactly if a connection its line went out on replies; it returns the timeout envelope exactly if its line went out, the last connection it went out on gave no reply, and no replay was due; it raises exactly if a connection or a send that was due failed or a read broke. |
| Transport.StateExactly | src/droidjig/providers/transport.py:129-184 | What a request leaves in each of these cases: the copies of its line, the cached connection, its stamp, and what is noted about the companion. |
| Transport.SessionIsAtMostOnce | src/droidjig/providers/transport.py:111-170 | Over any session with distinct ids, each mutating request is delivered at most once and each read-only one at most twice. |
| Transport.CachedConnectionAnswered | src/droidjig/providers/transport.py:103-170 | Over any session a cached connection is the one that carried the latest answer, is stamped with the time of that answer, and every call since has raised. |
| Transport.SocketTransport.DoRequest | src/droidjig/providers/transport.py:111-127 | The outer call that records a failure before letting it through. |
| Transport.SocketTransport.DoRequestLocked | src/droidjig/providers/transport.py:129-170 | Checkout, resend on a failed send, and replay of read-only methods, with the fields updated in the source's order. |
| Transport.SocketTransport.AwaitReply | src/droidjig/providers/transport.py:172-184 | The read loop skips garbage and replies to other requests and returns the first reply to this one. |
| UiTree.NumberingsAgree | src/droidjig/ui_parser.py:26-117 | The flat scan in document order and the recursive counter give every node the same number. |
| UiTree.ParentsNearest | src/droidjig/ui_parser.py:83-103 | The recorded parent of every node is the number of its nearest numbered strict ancestor. |
| UiTree.DocumentOrder | src/droidjig/ui_parser.py:26-29 | The nodes are listed in document order, a node before its descendants and those before its later siblings, and each at its own position, none left out. |
| UiRelations.TreeIndexer.VisitNode | src/droidjig/ui_parser.py:83-103 | The recursive visit with its shared counter builds the specified tree. |
| UiRelations.Scan | src/droidjig/ui_parser.py:26-35 | The counting loop assigns the numbers of the flat scan. |
| UiRelations.Collector.Collect | src/droidjig/ui_parser.py:128-139 | The recursive collection fills the parent and children dictionaries with the parents and the numbered direct children of all numbered items, in document order. |
| UiRelations.ParseRelations | src/droidjig/ui_parser.py:120-157 | The whole computation: `parent` as the walk recorded it; `children` without repetition, exactly the inverse of `parent`, the recorded direct children first and then the others in ascending order; `siblings` exactly the other numbers with the same parent, in ascending order; `ancestors` the chain of parents. |
| UiRelations.NumberNamesOneNode | src/droidjig/ui_parser.py:83-103 | Every number names exactly one node. |
| UiRelations.DocumentIsWellFormed | src/droidjig/ui_parser.py:120-139 | Parents have smaller numbers (so the ancestor loop ends), the children recorded by the walk are numbered, without repetition and have that parent, and unwrapping a single root or wrapping several numbers the same elements. |
| UiRelations.ChainIsExact | src/droidjig/ui_parser.py:149-156 | The ancestor chain of a number holds exactly the numbers of its numbered strict ancestors. |
| UiRelations.RelationsAreExact | src/droidjig/ui_parser.py:120-157 | For every document: `parent` is the nearest numbered strict ancestor and smaller, `ancestors` holds exactly the numbered strict ancestors, nearest first, without repetition. (The lists it speaks of are equally long for every document, by `UiRelations.Aligned`.) |
| UiRelations.DirectIsExact | src/droidjig/ui_parser.py:128-139 | The direct children recorded for a number are exactly the numbers of the positions one step below its own, in ascending order. |
| NativeTree.BoundsRoundTrip | src/droidjig/ui_parser.py:6-10 | Printed bounds parse back for any four integers, negative ones included. |
| NativeTree.BoundsExample | src/droidjig/ui_parser.py:7 | The documented example parses to left, top, right, bottom in that order. |
| NativeLaws.IntsAreRead | src/droidjig/ui_parser.py:9 | An integer is read from exactly the texts of an optional sign and decimal figures, and is their value. |
| NativeLaws.BoundsAreRead | src/droidjig/ui_parser.py:6-10 | Bounds are read from a text exactly when its words, between any brackets, commas and spaces, are four numerals: left, top, right, bottom. (Every text is made of words and gaps, by `NativeLaws.EveryTextIsLaid`.) |
| NativeLaws.PiecesAreRead | src/droidjig/ui_parser.py:71 | An action list is read as the non-empty pieces between its commas. |
| NativeLaws.PrintIsExact | src/droidjig/native_tree.py:13-29 | A printed node has exactly fourteen attributes, each text as it is, each of seven flags as "true" or "false", the bounds in their bracket form and the actions joined by commas. |
| NativeLaws.PrintsInOrder | src/droidjig/native_tree.py:32-38 | The printed hierarchy has one such element for each node of each window, earlier windows first and each window in its order. |
| NativeLaws.ParseIsExact | src/droidjig/ui_parser.py:26-74 | Parsing a document fails exactly when a shown node (with text, description or `clickable` "true") has bounds that cannot be read; otherwise its elements are the shown nodes in document order, numbered from 0, each field and flag read from its own attribute or default. |
| NativeTree.ActionsRoundTrip | src/droidjig/native_tree.py:25 | An action list parses back exactly when all its names are non-empty and free of commas. |
| NativeTree.ElementRoundTrip | src/droidjig/native_tree.py:13-29 | One printed node is read back with equal texts, ids, bounds, center and flags, and is kept by the parser exactly when it is meaningful. |
| NativeTree.NativeRoundTrip | src/droidjig/native_tree.py:32-38 | Printing an observation and parsing it never fails and yields precisely the meaningful nodes, in window and node order, renumbered from 0; their action lists are equal too exactly when every meaningful node's names are plain. |
| NativeTree.ToCompatXml | src/droidjig/native_tree.py:32-38 | The two nested loops print the nodes of all windows in order. |
| NativeTree.ParseElements | src/droidjig/ui_parser.py:26-74 | The element loop, its counter and its failure on malformed bounds. |
| NativeTree.ElementNumbers | src/droidjig/ui_parser.py:26-74 | The elements are as many as the meaningful nodes and numbered consecutively. |
| NativeTree.ElementsAreScanned | src/droidjig/ui_parser.py:26-74 | The element numbered x is the one read from the node that the flat scan of `parse_relations` numbers x, and a node without a number gives none. |
| Pipeline.EventRing.Add | android/accessibility-companion/app/src/main/kotlin/com/droidjig/companion/accessibility/EventRing.kt:22-28 | Numbers are consecutive and the buffer is always the last `capacity` events ever added. |
| Pipeline.QuerySelects | android/accessibility-companion/app/src/main/kotlin/com/droidjig/companion/accessibility/EventRing.kt:30-41 | Which stretch of the device's log a query returns and where its cursor ends, for every cursor and limit. |
| Pipeline.EventBus.PublishEvent | src/droidjig/daemon/events.py:23-34 | Publishing appends one event with the next number. |
| Pipeline.PollSlices | src/droidjig/daemon/events.py:36-39 | A poll returns the next stretch of the bus after the cursor and moves the cursor to its end. |
| Pipeline.EventPoller.DrainOnce | src/droidjig/daemon/poller.py:13-29 | The two loops publish the unguarded selected events and each notification key once, and count what they published. |
| Pipeline.UiEventsInOrder | src/droidjig/daemon/poller.py:13-29 | Over any run, with packages guarded and released in between, the UI events on the bus are exactly those whose package was not guarded when the cursor passed them, each at most once and in log order. |
| Pipeline.UiEventsExactlyOnce | src/droidjig/daemon/poller.py:13-29 | With one set of guarded packages, and while the lag stays within the ring, the UI events on the bus are exactly the unguarded events of the log from the cursor's start to the cursor, each once and in order. |
| Pipeline.NotesExactlyOnce | src/droidjig/daemon/poller.py:22-28 | Over any run the notification keys on the bus are those the source ever listed, each exactly once and in the order of their first listing. |
| Pipeline.DrainPublishesExactly | src/droidjig/daemon/poller.py:13-29 | After any run a drain publishes exactly the unguarded events of its stretch of the log, in order, and then the keys it is the first to list, in order. |
| Pipeline.DrainCatchesUp | android/accessibility-companion/app/src/main/kotlin/com/droidjig/companion/accessibility/EventRing.kt:43-59 | A drain within the ring's capacity moves the cursor on by as many events as it may take, guarded ones included, and publishes exactly the unguarded ones. |
| Pipeline.TriggersConsiderOnce | src/droidjig/daemon/triggers.py:52-57 | Bus numbers are 1..n; each event is considered at most once and in order, and exactly those up to the cursor if no step raised. |
| Pipeline.TriggerStepReads | src/droidjig/daemon/triggers.py:52-57 | After any run a step moves the cursor over up to the limit of unread events and considers those, or those before the one whose handling raises. |
| Pipeline.PolledToTheEnd | src/droidjig/daemon/triggers.py:52-57 | After a run in which no step raised, as many more steps as there are unread events, or more, consider the whole bus exactly once. |
| FireLimits.FireRates | src/droidjig/macro/limits.py:7-30 | Over any run and whatever other macros do, consecutive fires of a macro are at least its cooldown apart, above the one-hour pruning horizon too, and no window (T-3600, T] holds more fires than its hourly cap. |
| FireLimits.AllowIsExact | src/droidjig/macro/limits.py:7-18 | On the pruned history the limits refuse exactly when the true history has a fire within the cooldown or the cap is used up. |
| FireLimits.AttemptFiresExactly | src/droidjig/macro/limits.py:7-30 | After any run an attempt enters its macro's fires exactly if, judged by all earlier fires, the cooldown has passed and the last hour's cap is not used up; no other macro's fires change. |
| FireLimits.StoreIsLastHour | src/droidjig/macro/limits.py:25-30 | After any run the store holds of each macro exactly the fires of the hour that ends with its latest one, in order. |
| FireLimits.RecordKeepsHistory | src/droidjig/macro/limits.py:25-30 | The stored history stays the end of the true one, and what is missing has left every window still to come. |
| FireLimits.TriggerManager.Step | src/droidjig/daemon/triggers.py:52-90 | One step takes exactly the next batch, tries every matching pair of event and macro in order, and fires exactly those its limits allow; the first of them whose run raises ends the step, with its fire recorded, the cursor behind the whole batch, and nothing after it handled. |
| FireLimits.BatchIsRun | src/droidjig/daemon/triggers.py:52-90 | If clock readings do not decrease, the attempts a step makes are a run of the limits (so `FireLimits.FireRates` covers them): all of its matching pairs if no allowed one raises, and otherwise those up to the first that does; who fired are exactly those the limits allow, but for that one. |
| FireLimits.AttemptsAreMatches | src/droidjig/daemon/triggers.py:56-80 | A step makes one attempt for each matching pair of event and macro, event by event and macro by macro, each at its own place with its own clock reading. |
| Schedule.ComputeNextFire | src/droidjig/macro/scheduler.py:33-49 | The loop over at most eight days computes the specified delay, for unparsable clocks too. |
| Schedule.ClockIsRead | src/droidjig/macro/scheduler.py:7-12 | A clock is read from exactly the texts that are two numerals, 0 to 23 and 0 to 59, around one colon. |
| Schedule.ValidateIsExact | src/droidjig/macro/scheduler.py:15-30 | What the validator reports: of a time spec an unreadable clock, or else a weekday that is none of 0 to 6; of an interval that it is not positive; and that the next fire of a time spec raises exactly when its clock cannot be read. |
| Schedule.NextFireIsLeast | src/droidjig/macro/scheduler.py:33-49 | For a validated time spec the delay leads to hh:mm:00 on an allowed weekday, is positive, at most seven days, and the least such (days of 86400 seconds counted from a Monday). |
| Schedule.TargetIsScheduledExactly | src/droidjig/macro/scheduler.py:43-48 | Without validation the computed instant is a scheduled one exactly when the weekday list is empty or names a real weekday. |
| Schedule.FiresExactly | src/droidjig/daemon/triggers.py:104-124 | A call that reaches a validated time macro starts a run of it exactly when a scheduled instant has come up since its latest fire, and fires it exactly if that run returns. |
| Schedule.NothingStartsUnarmed | src/droidjig/daemon/triggers.py:109-117 | The first call that reaches a macro only arms it, and a macro without a schedule is never started. |
| Schedule.FiresFollowSchedule | src/droidjig/daemon/triggers.py:104-124 | Between two consecutive fires (runs that returned), and no later than the second, lies a scheduled instant. |
| Schedule.IntervalFiresAreSpaced | src/droidjig/daemon/triggers.py:104-124 | Fires of an interval macro (runs that returned) are at least `every_seconds` apart. |
| Schedule.IntervalFiresExactly | src/droidjig/daemon/triggers.py:104-124 | A call that reaches an interval macro starts a run of it exactly when the interval has passed since its latest fire, and fires it exactly if that run returns. |
| Schedule.RaisingRunIsRepeated | src/droidjig/daemon/triggers.py:118-123 | A run that raised is started again at the next call that reaches the macro, whatever its trigger. |
| Schedule.DueIsPerMacro | src/droidjig/daemon/triggers.py:104-124 | A call raises exactly when some listed macro is due and its run raises; macros after the first such one are untouched, that one and those before it are served as if each were alone. |
| Schedule.SchedulerServesEachAlone | src/droidjig/daemon/triggers.py:104-124 | Over any run of calls, with macros enabled and disabled and runs raising in between, each macro is armed, started and fired as if it were alone at the calls that reach it, which are those that list it behind no due macro whose run raises. |
| Schedule.RaisingRunStarvesOthers | src/droidjig/daemon/triggers.py:118-123 | As long as the run of a due macro listed first raises, it is run at every call and no other macro is armed, started or fired. |
| Schedule.StarvedMacro | src/droidjig/daemon/triggers.py:118-123 | Two macros due every minute, of which the first raises: over any number of calls the second never fires, though alone it would. |
| Schedule.Scheduler.RunDue | src/droidjig/daemon/triggers.py:104-124 | The loop over macros with its armed dictionary is the specified sweep, cut short by an unparsable trigger or by a run that raises, before that macro is armed anew. |
| Generation.CheckIsExact | android/accessibility-companion/app/src/main/kotlin/com/droidjig/companion/accessibility/Generation.kt:19-33 | With walks, replies, requests, checks and events interleaved freely, an action with a token passes exactly when the mutations since the token's capture are a multiple of 2^64; without a token it always passes. |
| Generation.VersionsAreChanges | android/accessibility-companion/app/src/main/kotlin/com/droidjig/companion/service/CompanionAccessibilityService.kt:72-78 | After any run, the tree version that a walk, a node's reading, a check or an action is recorded with is the number of window-state and window-content events so far. |
| Generation.AcceptedChecksMeetTheObservedTree | android/accessibility-companion/app/src/main/kotlin/com/droidjig/companion/service/CompanionAccessibilityService.kt:97-123 | If an echoed token passes and fewer than 2^64 mutations lie in between, there was none, and every node of the walk that returned it was read from the version the check found. |
| Generation.ActionsMeetTheObservedTreeExactly | android/accessibility-companion/app/src/main/kotlin/com/droidjig/companion/service/CompanionAccessibilityService.kt:293-313 | An action after a passed check meets the version every node of the walk was read from exactly if nothing mutated between the check and the action (fewer than 2^64 mutations since the capture). |
| Generation.LateMutationIsMissed | android/accessibility-companion/app/src/main/kotlin/com/droidjig/companion/service/CompanionAccessibilityService.kt:293-313 | A run in which a mutation comes between the check and the action, which then meets another version than the observed one. |
| Generation.Service.OnAccessibilityEvent | android/accessibility-companion/app/src/main/kotlin/com/droidjig/companion/service/CompanionAccessibilityService.kt:72-84 | A window-state or window-content event, and no other, increments the 64-bit counter, and the window record keeps the latest named window. |
| Generation.Service.RequireFresh | android/accessibility-companion/app/src/main/kotlin/com/droidjig/companion/accessibility/Generation.kt:26-33 | The check against the live counter. |
| Generation.RequestEchoesLatestObservation | src/droidjig/providers/accessibility.py:67-79 | After any run, and whatever comes in between, a client's request carries the token of the walk that client observed last. |
| Generation.Provider.ObserveNative | src/droidjig/providers/accessibility.py:67-74 | The client object stays a client of the protocol: an observation is its receive transition, and a reply without a token changes nothing. |
| Generation.Provider.WithGeneration | src/droidjig/providers/accessibility.py:76-79 | The parameters it completes are those of the request that the protocol's send transition adds. |

## Left out

- Variables, interpolation and conditions: what they evaluate to is an arbitrary answer of the world; scopes are not modelled, nor exceptions raised while evaluating them.
- MacroSyntax.Validator.ValidateSteps: has no messages for documents that are not lists of objects with a `type`, and no paths in its messages; the documents modelled are lists of typed steps.
- Top-level keys of a macro; the `catch` list that `docs/macros.md:151` gives a `try`, which nothing reads.
- The values of step keys and targets: a `tap` without coordinates or a `swipe` with odd ones raises inside `run_action`, whose exceptions are arbitrary answers of the world.
- Run records, audit log, sleeps and backoff: they do not feed back into a run.
- Ledger rows are taken as well typed; a grant without `id` or with an unknown risk level is not modelled.
- The companion's own checks, kill switch, policy and risk classification: an action's risk is an arbitrary level of four.
- Platforms without file locks are modelled for a single process only; with several the code gives no exclusion there.
- A file lock that raises instead of returning, failed writes and corrupt stores: persisted state is a total store.
- RateLimit.CheckIsExact: like `RateLimit.RefusesExactly` and `RateLimit.AdmitsExactly`, is stated for verbs not named "global" or "high_risk", because for those the code counts one action twice in one bucket; the bound itself holds for all verbs.
- An action counts towards the rate limits when its whole function returned: one that took effect and then raised is not recorded, as in the code.
- Idempotent calls running at the same time: the store is written outside the locks, so those results are for sequential calls; the time to live is constant.
- The ping cache, the handshake and closing of sockets; a connection is a number, a failed send delivers no line, and what a connection yields is an arbitrary script of lines.
- A cached connection is not claimed to be clean: a raising read leaves it cached, as in the code.
- XML text, escaping and the trailing status line of a dump: a document is its tree of attribute maps. Elements other than `node` inside the hierarchy are not modelled.
- Integer parsing accepts an optional sign and decimal digits; underscores, surrounding blanks and other Unicode digits that the language also accepts are not modelled.
- The dictionaries of `parse_relations` are sequences indexed by number, in insertion order; `build_tree` is the same tree without its private key.
- Screen hashes, visible text by region, lock-state parsing and list extraction: they only read elements.
- Restarts of the accessibility service, which reset the ring and the counter.
- Notifications are known by their keys only; event data, sources and bus timestamps are left out, and so is the refusal of unknown event types.
- Trigger matching and macro conditions are an arbitrary relation of event and macro that does not raise; of the engine run that follows a fire only whether it raises is part of a step or call. That an exception of the trigger step also skips the scheduler's call is not modelled.
- Times are exact reals, and local time in the scheduler is exact microseconds without daylight saving; wall-clock jumps are excluded where a property says the clock does not decrease.
- A weekday list holding non-integers, and an `at` that is not a string.
- The worker thread of the job registry, its condition variable, `get`, results and start times of jobs.
- The `generation` parameter is a number or absent; other JSON values are not modelled. A mutation counts when its event arrives.
- Daemon-side cancellation: only the token given to the engine is modelled.
