/** Binding actions to observations: a 64-bit token is captured before a walk of the live tree,
    which is not atomic, and checked before an action that was reasoned over that walk. */
module Generation {
  import opened Common

  const MODULUS: int := 0x1_0000_0000_0000_0000
  const MAX_LONG: int := 0x7FFF_FFFF_FFFF_FFFF
  const MIN_LONG: int := -0x8000_0000_0000_0000

  /** A 64-bit signed integer, incremented as a machine word. */
  function Increment(n: int): int {
    if n == MAX_LONG then MIN_LONG else n + 1
  }

  /** What a word that started at zero holds after `count` increments. */
  function Wrap(count: nat): int {
    var n := count % MODULUS;
    if n <= MAX_LONG then n else n - MODULUS
  }

  /** An absent token means the caller opted out. */
  predicate IsFresh(requested: Option<int>, current: int) {
    requested.None? || requested.value == current
  }

  lemma WrapIncrements(count: nat)
    ensures Wrap(count + 1) == Increment(Wrap(count))
  {
  }

  lemma WrapCollides(a: nat, b: nat)
    requires a <= b
    ensures Wrap(a) == Wrap(b) <==> (b - a) % MODULUS == 0
  {
  }

  // ---------------------------------------------------------------- the protocol

  /** `captured` counts the mutations before the token was read, `seen` the tree version each
      node was read at, `end` the version the reply was built at. */
  datatype Walk = Walk(captured: nat, token: int, seen: seq<nat>, end: Option<nat>)

  /** A client keeps the token of its latest observation; `walk` records which walk it came from. */
  datatype Client = Client(last: Option<int>, walk: Option<nat>)

  datatype Request = Request(token: Option<int>, walk: Option<nat>)

  datatype Verdict = Verdict(request: nat, at: nat, accepted: bool)

  /** What follows an accepted check: the node is looked up in the tree of version `at`. */
  datatype Action = Action(verdict: nat, at: nat)

  /** `count` counts the tree-mutating events so far and so names the tree's version. */
  datatype State = State(
    count: nat,
    counter: int,
    walks: seq<Walk>,
    clients: map<nat, Client>,
    requests: seq<Request>,
    verdicts: seq<Verdict>,
    actions: seq<Action>
  )

  const START := State(0, 0, [], map[], [], [], [])

  datatype EventKind = WindowStateChanged | WindowContentChanged | OtherEvent

  predicate Mutates(kind: EventKind) {
    kind != OtherEvent
  }

  datatype Step =
    | Event(kind: EventKind)
    | Begin
    | Read(walk: nat)
    | Finish(walk: nat)
    | Receive(client: nat, walk: nat)
    | ReceiveBare(client: nat)         // a reply that carries no token
    | Send(client: nat)
    | Check(request: nat)
    | Act(verdict: nat)

  function ClientOf(s: State, c: nat): Client {
    if c in s.clients then s.clients[c] else Client(None, None)
  }

  /** Walks, replies, requests, checks and actions of any number of clients interleave with events freely. */
  predicate Legal(s: State, step: Step) {
    match step
    case Read(w) => w < |s.walks| && s.walks[w].end.None?
    case Finish(w) => w < |s.walks| && s.walks[w].end.None?
    case Receive(_, w) => w < |s.walks| && s.walks[w].end.Some?
    case Check(r) => r < |s.requests|
    case Act(v) => v < |s.verdicts| && s.verdicts[v].accepted
    case _ => true
  }

  function Next(s: State, step: Step): State
    requires Legal(s, step)
  {
    match step
    case Event(kind) =>
      if Mutates(kind) then s.(count := s.count + 1, counter := Increment(s.counter)) else s
    case Begin => s.(walks := s.walks + [Walk(s.count, s.counter, [], None)])
    case Read(w) => s.(walks := s.walks[w := s.walks[w].(seen := s.walks[w].seen + [s.count])])
    case Finish(w) => s.(walks := s.walks[w := s.walks[w].(end := Some(s.count))])
    case Receive(c, w) => s.(clients := s.clients[c := Client(Some(s.walks[w].token), Some(w))])
    case ReceiveBare(_) => s
    case Send(c) => s.(requests := s.requests + [Request(ClientOf(s, c).last, ClientOf(s, c).walk)])
    case Check(r) => s.(verdicts := s.verdicts + [Verdict(r, s.count, IsFresh(s.requests[r].token, s.counter))])
    case Act(v) => s.(actions := s.actions + [Action(v, s.count)])
  }

  predicate LegalRun(s: State, steps: seq<Step>)
    decreases |steps|
  {
    steps == [] || (Legal(s, steps[0]) && LegalRun(Next(s, steps[0]), steps[1..]))
  }

  function Run(s: State, steps: seq<Step>): State
    requires LegalRun(s, steps)
    decreases |steps|
  {
    if steps == [] then s else Run(Next(s, steps[0]), steps[1..])
  }

  // ---------------------------------------------------------------- what every step keeps

  predicate WalkInv(w: Walk, count: nat) {
    && w.captured <= count && w.token == Wrap(w.captured)
    && (w.end.Some? ==> w.captured <= w.end.value <= count)
    && forall i | 0 <= i < |w.seen| ::
         w.captured <= w.seen[i] <= if w.end.Some? then w.end.value else count
  }

  /** A token in circulation is the token of a walk that has ended. */
  predicate Backed(walks: seq<Walk>, token: Option<int>, walk: Option<nat>) {
    && (token.Some? <==> walk.Some?)
    && (walk.Some? ==>
          walk.value < |walks| && walks[walk.value].end.Some? && token.value == walks[walk.value].token)
  }

  predicate VerdictInv(s: State, v: Verdict) {
    && v.request < |s.requests| && v.at <= s.count
    && Backed(s.walks, s.requests[v.request].token, s.requests[v.request].walk)
    && (v.accepted <==> IsFresh(s.requests[v.request].token, Wrap(v.at)))
    && (s.requests[v.request].walk.Some? ==> s.walks[s.requests[v.request].walk.value].end.value <= v.at)
  }

  predicate ActionInv(s: State, a: Action) {
    a.verdict < |s.verdicts| && s.verdicts[a.verdict].accepted && s.verdicts[a.verdict].at <= a.at <= s.count
  }

  ghost predicate Inv(s: State) {
    && s.counter == Wrap(s.count)
    && (forall w | 0 <= w < |s.walks| :: WalkInv(s.walks[w], s.count))
    && (forall c | c in s.clients :: Backed(s.walks, s.clients[c].last, s.clients[c].walk))
    && (forall r | 0 <= r < |s.requests| :: Backed(s.walks, s.requests[r].token, s.requests[r].walk))
    && (forall v | 0 <= v < |s.verdicts| :: VerdictInv(s, s.verdicts[v]))
    && (forall a | 0 <= a < |s.actions| :: ActionInv(s, s.actions[a]))
  }

  /** A walk that has ended is not touched any more, so what rests on it stays as it was. */
  lemma BackedStays(s: State, step: Step, token: Option<int>, walk: Option<nat>)
    requires Legal(s, step) && Backed(s.walks, token, walk)
    ensures Backed(Next(s, step).walks, token, walk)
    ensures walk.Some? ==> Next(s, step).walks[walk.value] == s.walks[walk.value]
  {
  }

  lemma VerdictStays(s: State, step: Step, v: Verdict)
    requires Legal(s, step) && VerdictInv(s, v)
    ensures VerdictInv(Next(s, step), v)
  {
    BackedStays(s, step, s.requests[v.request].token, s.requests[v.request].walk);
    assert Next(s, step).requests[v.request] == s.requests[v.request];
  }

  lemma ActionsStay(s: State, step: Step)
    requires Inv(s) && Legal(s, step)
    ensures forall a | 0 <= a < |Next(s, step).actions| :: ActionInv(Next(s, step), Next(s, step).actions[a])
  {
    var s' := Next(s, step);
    forall a | 0 <= a < |s'.actions|
      ensures ActionInv(s', s'.actions[a])
    {
      assert a < |s.actions| ==> s'.actions[a] == s.actions[a] && ActionInv(s, s.actions[a]);
    }
  }

  lemma TokensStay(s: State, step: Step)
    requires Inv(s) && Legal(s, step)
    ensures forall c | c in Next(s, step).clients ::
              Backed(Next(s, step).walks, Next(s, step).clients[c].last, Next(s, step).clients[c].walk)
    ensures forall r | 0 <= r < |Next(s, step).requests| ::
              Backed(Next(s, step).walks, Next(s, step).requests[r].token, Next(s, step).requests[r].walk)
  {
    var s' := Next(s, step);
    forall c | c in s.clients
      ensures Backed(s'.walks, s.clients[c].last, s.clients[c].walk)
    {
      BackedStays(s, step, s.clients[c].last, s.clients[c].walk);
    }
    forall r | 0 <= r < |s.requests|
      ensures Backed(s'.walks, s.requests[r].token, s.requests[r].walk)
    {
      BackedStays(s, step, s.requests[r].token, s.requests[r].walk);
    }
  }

  lemma StepKeeps(s: State, step: Step)
    requires Inv(s) && Legal(s, step)
    ensures Inv(Next(s, step))
  {
    WrapIncrements(s.count);
    var s' := Next(s, step);
    TokensStay(s, step);
    forall v | 0 <= v < |s'.verdicts|
      ensures VerdictInv(s', s'.verdicts[v])
    {
      if v < |s.verdicts| {
        VerdictStays(s, step, s.verdicts[v]);
      }
    }
    ActionsStay(s, step);
  }

  lemma {:induction false} RunKeeps(s: State, steps: seq<Step>)
    requires Inv(s) && LegalRun(s, steps)
    ensures Inv(Run(s, steps))
    decreases |steps|
  {
    if steps != [] {
      StepKeeps(s, steps[0]);
      RunKeeps(Next(s, steps[0]), steps[1..]);
    }
  }

  /** The events that change the tree: a change of the window's state or of its content. */
  predicate ChangesTree(step: Step) {
    step.Event? && (step.kind == WindowStateChanged || step.kind == WindowContentChanged)
  }

  /** How often the tree has changed in a run. */
  function Changes(steps: seq<Step>): nat {
    if steps == [] then 0 else (if ChangesTree(steps[0]) then 1 else 0) + Changes(steps[1..])
  }

  lemma {:induction false} CountIsChanges(s: State, steps: seq<Step>)
    requires LegalRun(s, steps)
    ensures Run(s, steps).count == s.count + Changes(steps)
    decreases |steps|
  {
    if steps != [] {
      CountIsChanges(Next(s, steps[0]), steps[1..]);
    }
  }

  /** From `s` to `s'` exactly this is recorded, when the tree has changed `n` times so far. */
  ghost predicate Records(s: State, step: Step, s': State, n: nat) {
    match step
    case Begin =>
      && |s'.walks| == |s.walks| + 1 && s'.walks[..|s.walks|] == s.walks
      && s'.walks[|s.walks|].captured == n && s'.walks[|s.walks|].seen == [] && s'.walks[|s.walks|].end == None
    case Read(w) =>
      w < |s.walks| && s'.walks == s.walks[w := s.walks[w].(seen := s.walks[w].seen + [n])]
    case Finish(w) =>
      w < |s.walks| && s'.walks == s.walks[w := s.walks[w].(end := Some(n))]
    case Check(r) =>
      && |s'.verdicts| == |s.verdicts| + 1 && s'.verdicts[..|s.verdicts|] == s.verdicts
      && s'.verdicts[|s.verdicts|].request == r && s'.verdicts[|s.verdicts|].at == n
    case Act(v) => s'.actions == s.actions + [Action(v, n)]
    case _ => s'.walks == s.walks && s'.verdicts == s.verdicts && s'.actions == s.actions
  }

  /** After any run, what a step records of the tree's version is the number of events so far that
      changed the tree. */
  lemma VersionsAreChanges(steps: seq<Step>, step: Step)
    requires LegalRun(START, steps) && Legal(Run(START, steps), step)
    ensures Records(Run(START, steps), step, Next(Run(START, steps), step), Changes(steps))
  {
    CountIsChanges(START, steps);
  }

  /** An action that carries a token is let through exactly when the mutations between the capture
      of the token and the check make a multiple of 2^64; without a token it always is. */
  lemma CheckIsExact(steps: seq<Step>, v: nat)
    requires LegalRun(START, steps) && v < |Run(START, steps).verdicts|
    ensures var s := Run(START, steps);
            var verdict := s.verdicts[v];
            && verdict.request < |s.requests|
            && var request := s.requests[verdict.request];
               && (request.token.Some? <==> request.walk.Some?)
               && (request.token.None? ==> verdict.accepted)
               && (request.walk.Some? ==>
                     && request.walk.value < |s.walks|
                     && s.walks[request.walk.value].captured <= verdict.at
                     && (verdict.accepted <==>
                           (verdict.at - s.walks[request.walk.value].captured) % 18_446_744_073_709_551_616 == 0))
  {
    RunKeeps(START, steps);
    var s := Run(START, steps);
    var verdict := s.verdicts[v];
    assert VerdictInv(s, verdict);
    var request := s.requests[verdict.request];
    if request.walk.Some? {
      var w := s.walks[request.walk.value];
      assert WalkInv(w, s.count);
      WrapCollides(w.captured, verdict.at);
    }
  }

  /** If an echoed token passes and fewer than 2^64 mutations lie in between, there was none: every
      node of the walk that returned it was read from the version the check found. */
  lemma AcceptedChecksMeetTheObservedTree(steps: seq<Step>, v: nat)
    requires LegalRun(START, steps) && v < |Run(START, steps).verdicts|
    ensures var s := Run(START, steps);
            var verdict := s.verdicts[v];
            && verdict.request < |s.requests|
            && var request := s.requests[verdict.request];
               verdict.accepted && request.walk.Some? ==>
                 && request.walk.value < |s.walks|
                 && var w := s.walks[request.walk.value];
                    verdict.at - w.captured < 18_446_744_073_709_551_616 ==>
                      verdict.at == w.captured && forall i | 0 <= i < |w.seen| :: w.seen[i] == verdict.at
  {
    CheckIsExact(steps, v);
    RunKeeps(START, steps);
    var s := Run(START, steps);
    assert VerdictInv(s, s.verdicts[v]);
  }

  /** The action itself comes after the check.  With a token, and fewer than 2^64 mutations since its
      capture, it meets the version every node of the walk was read from exactly if nothing mutated
      between the check and the action. */
  lemma ActionsMeetTheObservedTreeExactly(steps: seq<Step>, a: nat)
    requires LegalRun(START, steps) && a < |Run(START, steps).actions|
    ensures var s := Run(START, steps);
            var action := s.actions[a];
            && action.verdict < |s.verdicts| && s.verdicts[action.verdict].request < |s.requests|
            && var verdict := s.verdicts[action.verdict];
               var request := s.requests[verdict.request];
               request.walk.Some? ==>
                 && request.walk.value < |s.walks|
                 && var w := s.walks[request.walk.value];
                    action.at - w.captured < 18_446_744_073_709_551_616 ==>
                      && (action.at == w.captured <==> action.at == verdict.at)
                      && forall i | 0 <= i < |w.seen| :: (w.seen[i] == action.at <==> action.at == verdict.at)
  {
    RunKeeps(START, steps);
    var s := Run(START, steps);
    assert ActionInv(s, s.actions[a]);
    AcceptedChecksMeetTheObservedTree(steps, s.actions[a].verdict);
  }

  lemma {:induction false} RunInTwo(s: State, first: seq<Step>, rest: seq<Step>)
    requires LegalRun(s, first) && LegalRun(Run(s, first), rest)
    ensures LegalRun(s, first + rest) && Run(s, first + rest) == Run(Run(s, first), rest)
    decreases |first|
  {
    if first == [] {
      assert first + rest == rest;
    } else {
      assert (first + rest)[1..] == first[1..] + rest;
      RunInTwo(Next(s, first[0]), first[1..], rest);
    }
  }

  lemma RunOfTwo(s: State, a: Step, b: Step)
    requires Legal(s, a) && Legal(Next(s, a), b)
    ensures LegalRun(s, [a, b]) && Run(s, [a, b]) == Next(Next(s, a), b)
  {
    assert [a, b][1..] == [b] && [b][1..] == [];
    var s2 := Next(Next(s, a), b);
    assert LegalRun(s2, []) && Run(s2, []) == s2;
    assert LegalRun(Next(s, a), [b]) && Run(Next(s, a), [b]) == s2;
  }

  /** A walk, its reply, the client's request and the check: 0 is their number throughout. */
  lemma CheckedRun() returns (steps: seq<Step>)
    ensures LegalRun(START, steps)
    ensures Run(START, steps)
            == State(0, 0, [Walk(0, 0, [0], Some(0))], map[0 := Client(Some(0), Some(0))],
                     [Request(Some(0), Some(0))], [Verdict(0, 0, true)], [])
  {
    var s2 := State(0, 0, [Walk(0, 0, [0], None)], map[], [], [], []);
    RunOfTwo(START, Begin, Read(0));
    var w := Walk(0, 0, [], None);
    assert START.walks + [w] == [w] && w.seen + [0] == [0];
    assert Next(START, Begin) == START.(walks := [w]);
    assert Next(Next(START, Begin), Read(0)) == s2;
    var s4 := State(0, 0, [Walk(0, 0, [0], Some(0))], map[0 := Client(Some(0), Some(0))], [], [], []);
    RunOfTwo(s2, Finish(0), Receive(0, 0));
    assert Next(s2, Finish(0)) == s2.(walks := s4.walks);
    assert s2.clients[0 := Client(Some(0), Some(0))] == s4.clients;
    assert Next(Next(s2, Finish(0)), Receive(0, 0)) == s4;
    RunOfTwo(s4, Send(0), Check(0));
    RunInTwo(START, [Begin, Read(0)], [Finish(0), Receive(0, 0)]);
    RunInTwo(START, [Begin, Read(0)] + [Finish(0), Receive(0, 0)], [Send(0), Check(0)]);
    steps := [Begin, Read(0)] + [Finish(0), Receive(0, 0)] + [Send(0), Check(0)];
  }

  /** And a mutation can come in between: after some run the check has passed, and the action meets
      another version than the one every node was read from. */
  lemma LateMutationIsMissed() returns (steps: seq<Step>)
    ensures LegalRun(START, steps)
    ensures var s := Run(START, steps);
            && s.verdicts == [Verdict(0, 0, true)] && s.requests == [Request(Some(0), Some(0))]
            && s.walks == [Walk(0, 0, [0], Some(0))] && s.actions == [Action(0, 1)]
  {
    steps := CheckedRun();
    RunOfTwo(Run(START, steps), Event(WindowContentChanged), Act(0));
    RunInTwo(START, steps, [Event(WindowContentChanged), Act(0)]);
    steps := steps + [Event(WindowContentChanged), Act(0)];
  }

  /** No observation of client `c` arrives. */
  predicate NoReceive(steps: seq<Step>, c: nat) {
    forall i | 0 <= i < |steps| :: !(steps[i].Receive? && steps[i].client == c)
  }

  lemma {:induction false} ClientKeepsToken(s: State, steps: seq<Step>, c: nat)
    requires LegalRun(s, steps) && NoReceive(steps, c)
    ensures ClientOf(Run(s, steps), c) == ClientOf(s, c)
    decreases |steps|
  {
    if steps != [] {
      assert !(steps[0].Receive? && steps[0].client == c);
      ClientKeepsToken(Next(s, steps[0]), steps[1..], c);
    }
  }

  /** A request carries the token of the walk its client observed last: after any run, whatever
      other clients, walks, events and replies without a token come in between. */
  lemma RequestEchoesLatestObservation(before: seq<Step>, c: nat, w: nat, between: seq<Step>)
    requires LegalRun(START, before) && Legal(Run(START, before), Receive(c, w))
    requires LegalRun(Next(Run(START, before), Receive(c, w)), between) && NoReceive(between, c)
    ensures var s := Run(START, before);
            var s' := Run(Next(s, Receive(c, w)), between);
            Next(s', Send(c)).requests == s'.requests + [Request(Some(s.walks[w].token), Some(w))]
  {
    ClientKeepsToken(Next(Run(START, before), Receive(c, w)), between, c);
  }

  // ---------------------------------------------------------------- the two ends

  class Service {
    var treeGeneration: int
    var lastWindowState: Option<(string, string)>
    ghost var count: nat

    ghost predicate Valid()
      reads this
    {
      treeGeneration == Wrap(count)
    }

    constructor ()
      ensures Valid() && count == 0 && lastWindowState == None
    {
      treeGeneration, lastWindowState, count := 0, None, 0;
    }

    /** Counts tree mutations, and keeps the latest window state that names its package. */
    method OnAccessibilityEvent(kind: EventKind, package: string, className: string)
      requires Valid()
      modifies this
      ensures Valid()
      ensures count == old(count) + if kind == WindowStateChanged || kind == WindowContentChanged then 1 else 0
      ensures lastWindowState ==
              if kind == WindowStateChanged && package != "" then Some((package, className)) else old(lastWindowState)
    {
      if kind == WindowStateChanged || kind == WindowContentChanged {
        WrapIncrements(count);
        treeGeneration := Increment(treeGeneration);
        count := count + 1;
      }
      if kind == WindowStateChanged {
        if package != "" {
          lastWindowState := Some((package, className));
        }
      }
    }

    /** The check that opens both text entry and semantic actions: a token captured after `captured`
        mutations passes exactly when a multiple of 2^64 have happened since. */
    method RequireFresh(requested: Option<int>, ghost captured: nat) returns (accepted: bool)
      requires Valid() && captured <= count && (requested.Some? ==> requested.value == Wrap(captured))
      ensures accepted <==> requested.None? || (count - captured) % 18_446_744_073_709_551_616 == 0
    {
      WrapCollides(captured, count);
      accepted := !(requested.Some? && requested.value != treeGeneration);
    }
  }

  /** The client's end: what it keeps is one client of the protocol. */
  class Provider {
    var lastGeneration: Option<int>
    ghost var walk: Option<nat>

    ghost function View(): Client
      reads this
    {
      Client(lastGeneration, walk)
    }

    constructor ()
      ensures View() == ClientOf(START, 0)
    {
      lastGeneration, walk := None, None;
    }

    /** The reply to an observation: of walk `w`, or one without a token, which changes nothing. */
    method ObserveNative(generation: Option<int>, ghost s: State, ghost c: nat, ghost w: nat)
      requires View() == ClientOf(s, c)
      requires generation.Some? ==> Legal(s, Receive(c, w)) && generation.value == s.walks[w].token
      modifies this
      ensures View() == ClientOf(Next(s, if generation.Some? then Receive(c, w) else ReceiveBare(c)), c)
    {
      if generation.Some? {
        lastGeneration, walk := generation, Some(w);
      }
    }

    /** The parameters of a request, which stood at `given`, become those the protocol sends. */
    method WithGeneration(given: Option<int>, ghost s: State, ghost c: nat) returns (echoed: Option<int>)
      requires View() == ClientOf(s, c)
      ensures given.None? || lastGeneration.Some? ==>
                Next(s, Send(c)).requests == s.requests + [Request(echoed, walk)]
      ensures lastGeneration.None? ==> echoed == given
    {
      echoed := given;
      if lastGeneration.Some? {
        echoed := lastGeneration;
      }
    }
  }
}
