/** How often macros fire: cooldown and hourly cap over a persisted, pruned history. */
module FireLimits {
  import opened Common
  import P = Pipeline

  const HORIZON: Time := 3600.0

  datatype MacroLimits = MacroLimits(cooldown: Option<Time>, perHour: Option<int>)

  type Store = map<string, seq<Time>>

  function HistoryOf(store: Store, name: string): seq<Time> {
    if name in store then store[name] else []
  }

  function MaxOf(times: seq<Time>): Time
    requires times != []
  {
    if |times| == 1 then times[0]
    else
      var m := MaxOf(times[..|times| - 1]);
      if m < times[|times| - 1] then times[|times| - 1] else m
  }

  /** The times younger than an hour. */
  function Young(times: seq<Time>, now: Time): seq<Time> {
    if times == [] then []
    else
      Young(times[..|times| - 1], now)
      + if now - times[|times| - 1] < HORIZON then [times[|times| - 1]] else []
  }

  /** A cooldown of zero counts as none. */
  predicate Allow(limits: MacroLimits, now: Time, history: seq<Time>) {
    && !(limits.cooldown.Some? && limits.cooldown.value != 0.0 && history != []
         && now - MaxOf(history) < limits.cooldown.value)
    && (limits.perHour.Some? ==> |Young(history, now)| < limits.perHour.value)
  }

  function Record(store: Store, name: string, now: Time): Store {
    store[name := Young(HistoryOf(store, name), now) + [now]]
  }

  // ---------------------------------------------------------------- runs

  /** `fires` logs, per macro, every time it fired; the store keeps only what pruning leaves. */
  datatype State = State(store: Store, fires: map<string, seq<Time>>, clock: Time)

  const EMPTY := State(map[], map[], 0.0)

  /** One matching event of one macro, and whether a run that it starts would raise. */
  datatype Attempt = Attempt(name: string, now: Time, raises: bool)

  function FiresOf(s: State, name: string): seq<Time> {
    HistoryOf(s.fires, name)
  }

  /** Limits are fixed per macro name. */
  type Policy = string -> MacroLimits

  function Next(policy: Policy, s: State, a: Attempt): State {
    if Allow(policy(a.name), a.now, HistoryOf(s.store, a.name)) then
      s.(store := Record(s.store, a.name, a.now),
         fires := s.fires[a.name := FiresOf(s, a.name) + [a.now]],
         clock := a.now)
    else s.(clock := a.now)
  }

  predicate LegalRun(policy: Policy, s: State, attempts: seq<Attempt>)
    decreases |attempts|
  {
    attempts == [] || (s.clock <= attempts[0].now && LegalRun(policy, Next(policy, s, attempts[0]), attempts[1..]))
  }

  function Run(policy: Policy, s: State, attempts: seq<Attempt>): State
    decreases |attempts|
  {
    if attempts == [] then s else Run(policy, Next(policy, s, attempts[0]), attempts[1..])
  }

  // ---------------------------------------------------------------- what every attempt keeps

  /** Fires in the half-open hour that ends at `until`. */
  function FiredWithin(fires: seq<Time>, until: Time): nat {
    if fires == [] then 0
    else
      FiredWithin(fires[..|fires| - 1], until)
      + if until - 3600.0 < fires[|fires| - 1] <= until then 1 else 0
  }

  predicate Rising(times: seq<Time>) {
    forall i, j | 0 <= i < j < |times| :: times[i] <= times[j]
  }

  predicate NoLater(times: seq<Time>, moment: Time) {
    forall i | 0 <= i < |times| :: times[i] <= moment
  }

  /** The kept history ends with the latest fire, and what is missing from it is out of every hour
      that is still to come. */
  ghost predicate HistoryInv(history: seq<Time>, fires: seq<Time>, clock: Time) {
    && Rising(fires) && NoLater(fires, clock)
    && EndsWith(fires, history)
    && (fires != [] ==> history != [])
    && NoLater(fires[..|fires| - |history|], clock - HORIZON)
  }

  ghost predicate Spaced(limits: MacroLimits, fires: seq<Time>) {
    limits.cooldown.Some? ==>
      forall i | 0 <= i < |fires| - 1 :: fires[i] + limits.cooldown.value <= fires[i + 1]
  }

  ghost predicate Capped(limits: MacroLimits, fires: seq<Time>) {
    limits.perHour.Some? ==>
      forall until :: FiredWithin(fires, until) <= if limits.perHour.value < 0 then 0 else limits.perHour.value
  }

  lemma {:induction false} MaxOfRising(times: seq<Time>)
    requires times != [] && Rising(times)
    ensures MaxOf(times) == times[|times| - 1]
  {
    if |times| > 1 {
      MaxOfRising(times[..|times| - 1]);
    }
  }

  lemma {:induction false} YoungSkipsOld(gone: seq<Time>, rest: seq<Time>, now: Time)
    requires NoLater(gone, now - HORIZON)
    ensures Young(gone + rest, now) == Young(rest, now)
    decreases |rest| + |gone|
  {
    var all := gone + rest;
    if rest != [] {
      assert all[..|all| - 1] == gone + rest[..|rest| - 1];
      YoungSkipsOld(gone, rest[..|rest| - 1], now);
    } else if gone != [] {
      var n := |gone| - 1;
      assert all == gone;
      assert gone[..n] + [] == gone[..n];
      YoungSkipsOld(gone[..n], [], now);
    }
  }

  lemma EndsWithTrans(times: seq<Time>, middle: seq<Time>, end: seq<Time>)
    requires EndsWith(times, middle) && EndsWith(middle, end)
    ensures EndsWith(times, end)
    ensures times[..|times| - |end|] == times[..|times| - |middle|] + middle[..|middle| - |end|]
  {
    var front, back := times[..|times| - |middle|], middle[..|middle| - |end|];
    assert times == front + back + end;
  }

  lemma EndsWithGrows(times: seq<Time>, end: seq<Time>, now: Time)
    requires EndsWith(times, end)
    ensures EndsWith(times + [now], end + [now])
    ensures (times + [now])[..|times| - |end|] == times[..|times| - |end|]
  {
  }

  lemma RisingEndsLast(times: seq<Time>, moment: Time)
    requires Rising(times) && times != [] && times[|times| - 1] <= moment
    ensures NoLater(times, moment)
  {
  }

  /** `young` is the end of `times`, and what precedes it is an hour old. */
  ghost predicate YoungEnd(times: seq<Time>, young: seq<Time>, now: Time) {
    EndsWith(times, young) && NoLater(times[..|times| - |young|], now - HORIZON)
  }

  lemma YoungEndGrows(front: seq<Time>, young: seq<Time>, last: Time, now: Time)
    requires YoungEnd(front, young, now)
    ensures YoungEnd(front + [last], young + [last], now)
  {
    EndsWithGrows(front, young, last);
  }

  lemma NoneYoung(times: seq<Time>, now: Time)
    requires Rising(times) && times != [] && times[|times| - 1] <= now - HORIZON
    ensures Young(times, now) == [] && YoungEnd(times, [], now)
  {
    RisingEndsLast(times, now - HORIZON);
    YoungSkipsOld(times, [], now);
    assert times + [] == times && times[..|times|] == times;
  }

  lemma {:induction false} YoungIsSuffix(times: seq<Time>, now: Time)
    requires Rising(times)
    ensures YoungEnd(times, Young(times, now), now)
  {
    if times != [] {
      var front, last := times[..|times| - 1], times[|times| - 1];
      if now - last < HORIZON {
        assert times == front + [last];
        YoungIsSuffix(front, now);
        YoungEndGrows(front, Young(front, now), last, now);
      } else {
        NoneYoung(times, now);
      }
    }
  }

  /** At a moment not before the latest fire, the young fires are those of the last hour. */
  lemma {:induction false} YoungCounts(fires: seq<Time>, now: Time)
    requires NoLater(fires, now)
    ensures |Young(fires, now)| == FiredWithin(fires, now)
  {
    if fires != [] {
      YoungCounts(fires[..|fires| - 1], now);
    }
  }

  /** The pruned history counts the last hour exactly. */
  lemma HistoryCounts(history: seq<Time>, fires: seq<Time>, clock: Time, now: Time)
    requires HistoryInv(history, fires, clock) && clock <= now
    ensures |Young(history, now)| == FiredWithin(fires, now)
  {
    var k := |fires| - |history|;
    var gone := fires[..k];
    assert fires == gone + history;
    YoungSkipsOld(gone, history, now);
    YoungCounts(fires, now);
  }

  lemma {:induction false} WindowShrinks(fires: seq<Time>, now: Time, until: Time)
    requires now <= until && NoLater(fires, now)
    ensures FiredWithin(fires, until) <= FiredWithin(fires, now)
  {
    if fires != [] {
      WindowShrinks(fires[..|fires| - 1], now, until);
    }
  }

  lemma RisingGrows(times: seq<Time>, now: Time)
    requires Rising(times) && NoLater(times, now)
    ensures Rising(times + [now]) && NoLater(times + [now], now)
  {
  }

  lemma RecordKeepsHistory(history: seq<Time>, fires: seq<Time>, clock: Time, now: Time)
    requires HistoryInv(history, fires, clock) && clock <= now
    ensures HistoryInv(Young(history, now) + [now], fires + [now], now)
  {
    assert Rising(history) by {
      RisingEnd(fires, history);
    }
    YoungIsSuffix(history, now);
    YoungEndIsKept(history, fires, Young(history, now), clock, now);
  }

  lemma YoungEndIsKept(history: seq<Time>, fires: seq<Time>, young: seq<Time>, clock: Time, now: Time)
    requires HistoryInv(history, fires, clock) && clock <= now && YoungEnd(history, young, now)
    ensures HistoryInv(young + [now], fires + [now], now)
  {
    EndsWithTrans(fires, history, young);
    OldJoins(fires[..|fires| - |history|], history[..|history| - |young|], clock, now);
    EndsWithGrows(fires, young, now);
    RisingGrows(fires, now);
  }

  lemma OldJoins(front: seq<Time>, back: seq<Time>, clock: Time, now: Time)
    requires NoLater(front, clock - HORIZON) && NoLater(back, now - HORIZON) && clock <= now
    ensures NoLater(front + back, now - HORIZON)
  {
  }

  lemma TimePasses(history: seq<Time>, fires: seq<Time>, clock: Time, now: Time)
    requires HistoryInv(history, fires, clock) && clock <= now
    ensures HistoryInv(history, fires, now)
  {
  }

  lemma RisingEnd(times: seq<Time>, end: seq<Time>)
    requires Rising(times) && EndsWith(times, end)
    ensures Rising(end)
  {
    var k := |times| - |end|;
    assert forall i | 0 <= i < |end| :: end[i] == times[i + k];
  }

  lemma FireKeepsCap(limits: MacroLimits, history: seq<Time>, fires: seq<Time>, clock: Time, now: Time)
    requires HistoryInv(history, fires, clock) && clock <= now && Allow(limits, now, history) && Capped(limits, fires)
    ensures Capped(limits, fires + [now])
  {
    if limits.perHour.Some? {
      var fires' := fires + [now];
      assert fires'[..|fires|] == fires;
      forall until
        ensures FiredWithin(fires', until) <= if limits.perHour.value < 0 then 0 else limits.perHour.value
      {
        assert FiredWithin(fires, until) <= if limits.perHour.value < 0 then 0 else limits.perHour.value;
        if until - HORIZON < now <= until {
          WindowShrinks(fires, now, until);
          HistoryCounts(history, fires, clock, now);
        }
      }
    }
  }

  lemma FireKeepsSpacing(limits: MacroLimits, history: seq<Time>, fires: seq<Time>, clock: Time, now: Time)
    requires HistoryInv(history, fires, clock) && clock <= now && Allow(limits, now, history) && Spaced(limits, fires)
    ensures Spaced(limits, fires + [now])
  {
    if fires != [] {
      RisingEnd(fires, history);
      MaxOfRising(history);
      assert history[|history| - 1] == fires[|fires| - 1];
    }
  }

  ghost predicate MacroInv(limits: MacroLimits, history: seq<Time>, fires: seq<Time>, clock: Time) {
    HistoryInv(history, fires, clock) && Spaced(limits, fires) && Capped(limits, fires)
  }

  ghost predicate Inv(policy: Policy, s: State) {
    forall name :: MacroInv(policy(name), HistoryOf(s.store, name), FiresOf(s, name), s.clock)
  }

  lemma FireKeeps(limits: MacroLimits, history: seq<Time>, fires: seq<Time>, clock: Time, now: Time)
    requires MacroInv(limits, history, fires, clock) && clock <= now && Allow(limits, now, history)
    ensures MacroInv(limits, Young(history, now) + [now], fires + [now], now)
  {
    RecordKeepsHistory(history, fires, clock, now);
    FireKeepsCap(limits, history, fires, clock, now);
    FireKeepsSpacing(limits, history, fires, clock, now);
  }

  lemma AttemptKeeps(policy: Policy, s: State, a: Attempt)
    requires Inv(policy, s) && s.clock <= a.now
    ensures Inv(policy, Next(policy, s, a))
  {
    var s' := Next(policy, s, a);
    forall name
      ensures MacroInv(policy(name), HistoryOf(s'.store, name), FiresOf(s', name), s'.clock)
    {
      var history, fires := HistoryOf(s.store, name), FiresOf(s, name);
      assert MacroInv(policy(name), history, fires, s.clock);
      if name == a.name && Allow(policy(name), a.now, history) {
        FireKeeps(policy(name), history, fires, s.clock, a.now);
      } else {
        TimePasses(history, fires, s.clock, a.now);
      }
    }
  }

  lemma {:induction false} RunKeeps(policy: Policy, s: State, attempts: seq<Attempt>)
    requires Inv(policy, s) && LegalRun(policy, s, attempts)
    ensures Inv(policy, Run(policy, s, attempts))
    decreases |attempts|
  {
    if attempts != [] {
      AttemptKeeps(policy, s, attempts[0]);
      RunKeeps(policy, Next(policy, s, attempts[0]), attempts[1..]);
    }
  }

  /** Over any run, whatever the other macros do, consecutive fires of a macro are at least its
      cooldown apart, above the pruning horizon too, and no window (T - 3600, T] holds more fires
      than its hourly cap. */
  lemma FireRates(policy: Policy, attempts: seq<Attempt>, name: string)
    requires LegalRun(policy, EMPTY, attempts)
    ensures var fires := FiresOf(Run(policy, EMPTY, attempts), name);
            Spaced(policy(name), fires) && Capped(policy(name), fires)
  {
    assert Inv(policy, EMPTY);
    RunKeeps(policy, EMPTY, attempts);
  }

  /** Judged by all its fires, the macro may fire: the cooldown has passed since the latest one, and
      the hour that ends now holds fewer than the cap. */
  ghost predicate MayFire(limits: MacroLimits, fires: seq<Time>, now: Time) {
    && (limits.cooldown.Some? && limits.cooldown.value != 0.0 && fires != [] ==>
          fires[|fires| - 1] + limits.cooldown.value <= now)
    && (limits.perHour.Some? ==> FiredWithin(fires, now) < limits.perHour.value)
  }

  lemma AllowedExactly(limits: MacroLimits, history: seq<Time>, fires: seq<Time>, clock: Time, now: Time)
    requires HistoryInv(history, fires, clock) && clock <= now
    ensures Allow(limits, now, history) <==> MayFire(limits, fires, now)
  {
    HistoryCounts(history, fires, clock, now);
    if fires != [] {
      RisingEnd(fires, history);
      MaxOfRising(history);
    }
  }

  /** The limits refuse a fire only when they must: exactly when it would come within the cooldown
      of the latest fire or find the hour's cap used up. */
  lemma AllowIsExact(policy: Policy, attempts: seq<Attempt>, name: string, now: Time)
    requires LegalRun(policy, EMPTY, attempts) && Run(policy, EMPTY, attempts).clock <= now
    ensures var s := Run(policy, EMPTY, attempts);
            Allow(policy(name), now, HistoryOf(s.store, name)) <==> MayFire(policy(name), FiresOf(s, name), now)
  {
    assert Inv(policy, EMPTY);
    RunKeeps(policy, EMPTY, attempts);
    var s := Run(policy, EMPTY, attempts);
    AllowedExactly(policy(name), HistoryOf(s.store, name), FiresOf(s, name), s.clock, now);
  }

  /** After any run, an attempt is logged as a fire of its macro exactly if that macro may fire, and
      no other macro's log changes. */
  lemma AttemptFiresExactly(policy: Policy, attempts: seq<Attempt>, a: Attempt, name: string)
    requires LegalRun(policy, EMPTY, attempts) && Run(policy, EMPTY, attempts).clock <= a.now
    ensures var s := Run(policy, EMPTY, attempts);
            FiresOf(Next(policy, s, a), name) ==
            if name == a.name && MayFire(policy(name), FiresOf(s, name), a.now) then FiresOf(s, name) + [a.now]
            else FiresOf(s, name)
  {
    AllowIsExact(policy, attempts, a.name, a.now);
  }

  /** What is stored are exactly the fires of the hour that ends with the latest one. */
  ghost predicate StoresLastHour(history: seq<Time>, fires: seq<Time>) {
    && EndsWith(fires, history)
    && (fires != [] ==>
          && (forall i | 0 <= i < |fires| - |history| :: fires[i] <= fires[|fires| - 1] - 3600.0)
          && (forall i | 0 <= i < |history| :: fires[|fires| - 1] - 3600.0 < history[i]))
  }

  lemma {:induction false} YoungIsYoung(times: seq<Time>, now: Time)
    ensures forall i | 0 <= i < |Young(times, now)| :: now - 3600.0 < Young(times, now)[i]
  {
    if times != [] {
      YoungIsYoung(times[..|times| - 1], now);
    }
  }

  lemma RecordStores(history: seq<Time>, fires: seq<Time>, clock: Time, now: Time)
    requires HistoryInv(history, fires, clock) && clock <= now
    ensures StoresLastHour(Young(history, now) + [now], fires + [now])
  {
    RecordKeepsHistory(history, fires, clock, now);
    YoungIsYoung(history, now);
    var fires', gone := fires + [now], |fires| - |Young(history, now)|;
    assert forall i | 0 <= i < gone :: fires'[i] == fires'[..gone][i];
  }

  lemma AttemptStores(policy: Policy, s: State, a: Attempt, name: string)
    requires Inv(policy, s) && s.clock <= a.now && StoresLastHour(HistoryOf(s.store, name), FiresOf(s, name))
    ensures var s' := Next(policy, s, a); StoresLastHour(HistoryOf(s'.store, name), FiresOf(s', name))
  {
    var history, fires := HistoryOf(s.store, name), FiresOf(s, name);
    assert MacroInv(policy(name), history, fires, s.clock);
    RecordStores(history, fires, s.clock, a.now);
    hide StoresLastHour;
    hide Young;
    hide Allow;
  }

  lemma {:induction false} RunStores(policy: Policy, s: State, attempts: seq<Attempt>, name: string)
    requires Inv(policy, s) && LegalRun(policy, s, attempts)
    requires StoresLastHour(HistoryOf(s.store, name), FiresOf(s, name))
    ensures var s' := Run(policy, s, attempts); StoresLastHour(HistoryOf(s'.store, name), FiresOf(s', name))
    decreases |attempts|
  {
    if attempts != [] {
      AttemptStores(policy, s, attempts[0], name);
      AttemptKeeps(policy, s, attempts[0]);
      hide StoresLastHour;
      hide Inv;
      hide Next;
      hide HistoryOf;
      hide FiresOf;
      RunStores(policy, Next(policy, s, attempts[0]), attempts[1..], name);
    }
  }

  /** After any run, the store holds of every macro exactly the fires of the hour that ends with its
      latest one, in order. */
  lemma StoreIsLastHour(policy: Policy, attempts: seq<Attempt>, name: string)
    requires LegalRun(policy, EMPTY, attempts)
    ensures var s := Run(policy, EMPTY, attempts); StoresLastHour(HistoryOf(s.store, name), FiresOf(s, name))
  {
    assert Inv(policy, EMPTY);
    RunStores(policy, EMPTY, attempts, name);
  }

  // ---------------------------------------------------------------- the trigger manager

  /** The outcome of trigger matching and conditions and, for each pair of an event's place in the
      batch and a macro's place in the list, the clock as read for it and whether its run raises. */
  datatype World = World(
    matches: (P.BusEvent, string) -> bool,
    readings: (nat, nat) -> Time,
    raises: (nat, nat) -> bool)

  /** What one event asks of the first `m` macros, in their order. */
  function AttemptsFor(w: World, batch: seq<P.BusEvent>, i: nat, macros: seq<string>, m: nat): seq<Attempt>
    requires i < |batch| && m <= |macros|
  {
    if m == 0 then []
    else
      AttemptsFor(w, batch, i, macros, m - 1)
      + if w.matches(batch[i], macros[m - 1])
        then [Attempt(macros[m - 1], w.readings(i, m - 1), w.raises(i, m - 1))] else []
  }

  /** What the first `n` events ask, event by event. */
  function AttemptsOf(w: World, batch: seq<P.BusEvent>, n: nat, macros: seq<string>): seq<Attempt>
    requires n <= |batch|
  {
    if n == 0 then []
    else AttemptsOf(w, batch, n - 1, macros) + AttemptsFor(w, batch, n - 1, macros, |macros|)
  }

  /** How many of the first `m` macros event `i` matches. */
  function MatchesBefore(w: World, batch: seq<P.BusEvent>, i: nat, macros: seq<string>, m: nat): nat
    requires i < |batch| && m <= |macros|
  {
    if m == 0 then 0
    else MatchesBefore(w, batch, i, macros, m - 1) + if w.matches(batch[i], macros[m - 1]) then 1 else 0
  }

  /** How many pairs of one of the first `n` events and a macro match. */
  function PairsBefore(w: World, batch: seq<P.BusEvent>, n: nat, macros: seq<string>): nat
    requires n <= |batch|
  {
    if n == 0 then 0
    else PairsBefore(w, batch, n - 1, macros) + MatchesBefore(w, batch, n - 1, macros, |macros|)
  }

  /** What event `i` asks of macro `j`, if it matches, stands behind `before` other attempts. */
  predicate Asks(w: World, batch: seq<P.BusEvent>, macros: seq<string>, i: nat, j: nat, attempts: seq<Attempt>,
                 before: nat)
    requires i < |batch| && j < |macros|
  {
    w.matches(batch[i], macros[j]) ==>
      before < |attempts| && attempts[before] == Attempt(macros[j], w.readings(i, j), w.raises(i, j))
  }

  lemma {:induction false} EventAsks(w: World, batch: seq<P.BusEvent>, i: nat, macros: seq<string>, m: nat)
    requires i < |batch| && m <= |macros|
    ensures |AttemptsFor(w, batch, i, macros, m)| == MatchesBefore(w, batch, i, macros, m)
    ensures forall j | 0 <= j < m ::
              Asks(w, batch, macros, i, j, AttemptsFor(w, batch, i, macros, m), MatchesBefore(w, batch, i, macros, j))
  {
    if m > 0 {
      EventAsks(w, batch, i, macros, m - 1);
    }
  }

  /** Where the attempt of event `i` at macro `j` stands among all. */
  function PlaceOf(w: World, batch: seq<P.BusEvent>, macros: seq<string>, i: nat, j: nat): nat
    requires i < |batch| && j <= |macros|
  {
    PairsBefore(w, batch, i, macros) + MatchesBefore(w, batch, i, macros, j)
  }

  lemma AsksEarlier(w: World, batch: seq<P.BusEvent>, macros: seq<string>, i: nat, j: nat, some: seq<Attempt>,
                    more: seq<Attempt>, before: nat)
    requires i < |batch| && j < |macros| && Asks(w, batch, macros, i, j, some, before)
    ensures Asks(w, batch, macros, i, j, some + more, before)
  {
  }

  lemma AsksLater(w: World, batch: seq<P.BusEvent>, macros: seq<string>, i: nat, j: nat, some: seq<Attempt>,
                  more: seq<Attempt>, before: nat)
    requires i < |batch| && j < |macros| && Asks(w, batch, macros, i, j, more, before)
    ensures Asks(w, batch, macros, i, j, some + more, |some| + before)
  {
  }

  lemma LastAsks(w: World, batch: seq<P.BusEvent>, macros: seq<string>, i: nat, j: nat)
    requires i < |batch| && j < |macros|
    ensures Asks(w, batch, macros, i, j, AttemptsOf(w, batch, i + 1, macros), PlaceOf(w, batch, macros, i, j))
  {
    EventAsks(w, batch, i, macros, |macros|);
    BatchCounts(w, batch, i, macros);
    AsksLater(w, batch, macros, i, j, AttemptsOf(w, batch, i, macros), AttemptsFor(w, batch, i, macros, |macros|),
              MatchesBefore(w, batch, i, macros, j));
    hide Asks;
    hide AttemptsFor;
    hide MatchesBefore;
    hide PairsBefore;
  }

  lemma {:induction false} BatchAsks(w: World, batch: seq<P.BusEvent>, n: nat, macros: seq<string>, i: nat, j: nat)
    requires i < n <= |batch| && j < |macros|
    ensures Asks(w, batch, macros, i, j, AttemptsOf(w, batch, n, macros), PlaceOf(w, batch, macros, i, j))
  {
    hide Asks;
    hide PlaceOf;
    if i == n - 1 {
      LastAsks(w, batch, macros, i, j);
    } else {
      BatchAsks(w, batch, n - 1, macros, i, j);
      AsksEarlier(w, batch, macros, i, j, AttemptsOf(w, batch, n - 1, macros),
                  AttemptsFor(w, batch, n - 1, macros, |macros|), PlaceOf(w, batch, macros, i, j));
    }
  }

  lemma {:induction false} BatchCounts(w: World, batch: seq<P.BusEvent>, n: nat, macros: seq<string>)
    requires n <= |batch|
    ensures |AttemptsOf(w, batch, n, macros)| == PairsBefore(w, batch, n, macros)
  {
    if n > 0 {
      BatchCounts(w, batch, n - 1, macros);
      EventAsks(w, batch, n - 1, macros, |macros|);
    }
  }

  /** A step makes one attempt for every matching pair of an event and a macro, event by event and
      within an event macro by macro, with the clock read and the run started for that pair. */
  lemma AttemptsAreMatches(w: World, batch: seq<P.BusEvent>, macros: seq<string>)
    ensures var attempts := AttemptsOf(w, batch, |batch|, macros);
            && |attempts| == PairsBefore(w, batch, |batch|, macros)
            && forall i, j | 0 <= i < |batch| && 0 <= j < |macros| ::
                 Asks(w, batch, macros, i, j, attempts, PlaceOf(w, batch, macros, i, j))
  {
    BatchCounts(w, batch, |batch|, macros);
    forall i, j | 0 <= i < |batch| && 0 <= j < |macros|
      ensures Asks(w, batch, macros, i, j, AttemptsOf(w, batch, |batch|, macros), PlaceOf(w, batch, macros, i, j))
    {
      BatchAsks(w, batch, |batch|, macros, i, j);
    }
  }

  /** Who fires in a run, in order. */
  function FiredIn(policy: Policy, s: State, attempts: seq<Attempt>): seq<string> {
    if attempts == [] then []
    else
      var before, last := attempts[..|attempts| - 1], attempts[|attempts| - 1];
      FiredIn(policy, s, before)
      + if Allow(policy(last.name), last.now, HistoryOf(Run(policy, s, before).store, last.name))
        then [last.name] else []
  }

  lemma {:induction false} RunConcat(policy: Policy, s: State, attempts: seq<Attempt>, a: Attempt)
    requires LegalRun(policy, s, attempts) && Run(policy, s, attempts).clock <= a.now
    ensures LegalRun(policy, s, attempts + [a])
    ensures Run(policy, s, attempts + [a]) == Next(policy, Run(policy, s, attempts), a)
    ensures FiredIn(policy, s, attempts + [a]) ==
            FiredIn(policy, s, attempts)
            + if Allow(policy(a.name), a.now, HistoryOf(Run(policy, s, attempts).store, a.name)) then [a.name] else []
    decreases |attempts|
  {
    var all := attempts + [a];
    assert all[..|attempts|] == attempts;
    if attempts == [] {
      assert all[1..] == [];
    } else {
      assert all[1..] == attempts[1..] + [a];
      RunConcat(policy, Next(policy, s, attempts[0]), attempts[1..], a);
    }
  }

  predicate AllowedAt(policy: Policy, s: State, a: Attempt) {
    Allow(policy(a.name), a.now, HistoryOf(s.store, a.name))
  }

  /** What holding attempts against the limits, one by one, comes to. */
  datatype End = End(st: State, fired: seq<string>, raised: bool)

  /** A fire is recorded before its run; a run that raises ends the whole. */
  function TryNext(policy: Policy, before: End, a: Attempt): End {
    if before.raised then before
    else
      var st := Next(policy, before.st, a);
      if !AllowedAt(policy, before.st, a) then End(st, before.fired, false)
      else if a.raises then End(st, before.fired, true)
      else End(st, before.fired + [a.name], false)
  }

  function TryAll(policy: Policy, s: State, attempts: seq<Attempt>): End {
    if attempts == [] then End(s, [], false)
    else TryNext(policy, TryAll(policy, s, attempts[..|attempts| - 1]), attempts[|attempts| - 1])
  }

  lemma TryAllNext(policy: Policy, s: State, attempts: seq<Attempt>, a: Attempt)
    ensures TryAll(policy, s, attempts + [a]) == TryNext(policy, TryAll(policy, s, attempts), a)
  {
    assert (attempts + [a])[..|attempts|] == attempts;
  }

  /** After a run that raised nothing more is tried. */
  lemma {:induction false} RaisedIsOver(policy: Policy, s: State, attempts: seq<Attempt>, rest: seq<Attempt>)
    requires TryAll(policy, s, attempts).raised
    ensures TryAll(policy, s, attempts + rest) == TryAll(policy, s, attempts)
    decreases |rest|
  {
    if rest == [] {
      assert attempts + rest == attempts;
    } else {
      var front, last := rest[..|rest| - 1], rest[|rest| - 1];
      RaisedIsOver(policy, s, attempts, front);
      assert attempts + rest == attempts + front + [last];
      TryAllNext(policy, s, attempts + front, last);
    }
  }

  /** The times of attempts do not decrease, from `start` on. */
  predicate InOrder(attempts: seq<Attempt>, start: Time) {
    && (forall i | 0 <= i < |attempts| :: start <= attempts[i].now)
    && forall i, j | 0 <= i < j < |attempts| :: attempts[i].now <= attempts[j].now
  }

  /** The fire of the last attempt raised. */
  predicate EndsByRaise(policy: Policy, s: State, attempts: seq<Attempt>) {
    && attempts != [] && attempts[|attempts| - 1].raises
    && AllowedAt(policy, Run(policy, s, attempts[..|attempts| - 1]), attempts[|attempts| - 1])
  }

  /** No attempt that fires raises. */
  predicate Smooth(policy: Policy, s: State, attempts: seq<Attempt>) {
    forall k | 0 < k <= |attempts| :: !EndsByRaise(policy, s, attempts[..k])
  }

  lemma SmoothNext(policy: Policy, s: State, front: seq<Attempt>, last: Attempt)
    requires Smooth(policy, s, front) && !EndsByRaise(policy, s, front + [last])
    ensures Smooth(policy, s, front + [last])
  {
    var attempts := front + [last];
    forall k | 0 < k <= |attempts|
      ensures !EndsByRaise(policy, s, attempts[..k])
    {
      if k <= |front| {
        assert attempts[..k] == front[..k];
      } else {
        assert attempts[..k] == attempts;
      }
    }
  }

  /** The first `n` attempts are made, and leave `end`: all of them if none that fires raises, and
      otherwise those up to the first that does.  Who fired are those the limits allow, but for that
      last one. */
  ghost predicate MadeUpTo(policy: Policy, s: State, attempts: seq<Attempt>, n: nat, end: End) {
    && n <= |attempts| && LegalRun(policy, s, attempts[..n]) && end.st == Run(policy, s, attempts[..n])
    && if end.raised then
         && EndsByRaise(policy, s, attempts[..n]) && Smooth(policy, s, attempts[..n - 1])
         && end.fired == FiredIn(policy, s, attempts[..n - 1])
       else
         n == |attempts| && Smooth(policy, s, attempts) && end.fired == FiredIn(policy, s, attempts)
  }

  lemma MadeStays(policy: Policy, s: State, front: seq<Attempt>, n: nat, end: End, last: Attempt)
    requires MadeUpTo(policy, s, front, n, end) && end.raised
    ensures MadeUpTo(policy, s, front + [last], n, end)
  {
    assert (front + [last])[..n] == front[..n] && (front + [last])[..n - 1] == front[..n - 1];
  }

  lemma MadeNext(policy: Policy, s: State, front: seq<Attempt>, end: End, last: Attempt)
    requires MadeUpTo(policy, s, front, |front|, end) && !end.raised && end.st.clock <= last.now
    ensures MadeUpTo(policy, s, front + [last], |front| + 1, TryNext(policy, end, last))
    ensures TryNext(policy, end, last).st.clock == last.now
  {
    var attempts := front + [last];
    assert front[..|front|] == front;
    RunConcat(policy, s, front, last);
    assert attempts[..|front|] == front && attempts[..|front| + 1] == attempts;
    if !TryNext(policy, end, last).raised {
      SmoothNext(policy, s, front, last);
    }
  }

  lemma MadeLast(policy: Policy, s: State, front: seq<Attempt>, n: nat, last: Attempt) returns (n': nat)
    requires MadeUpTo(policy, s, front, n, TryAll(policy, s, front)) && TryAll(policy, s, front).st.clock <= last.now
    ensures MadeUpTo(policy, s, front + [last], n', TryAll(policy, s, front + [last]))
    ensures TryAll(policy, s, front + [last]).st.clock <= last.now
  {
    var end := TryAll(policy, s, front);
    TryAllNext(policy, s, front, last);
    if end.raised {
      MadeStays(policy, s, front, n, end, last);
      n' := n;
    } else {
      MadeNext(policy, s, front, end, last);
      n' := |front| + 1;
    }
  }

  lemma MadeWhole(policy: Policy, s: State, attempts: seq<Attempt>, n: nat) returns (n': nat)
    requires attempts != []
    requires var front := attempts[..|attempts| - 1];
             && MadeUpTo(policy, s, front, n, TryAll(policy, s, front))
             && TryAll(policy, s, front).st.clock <= attempts[|attempts| - 1].now
    ensures MadeUpTo(policy, s, attempts, n', TryAll(policy, s, attempts))
    ensures TryAll(policy, s, attempts).st.clock <= attempts[|attempts| - 1].now
  {
    assert attempts == attempts[..|attempts| - 1] + [attempts[|attempts| - 1]];
    n' := MadeLast(policy, s, attempts[..|attempts| - 1], n, attempts[|attempts| - 1]);
  }

  lemma NothingMade(policy: Policy, s: State)
    ensures MadeUpTo(policy, s, [], 0, TryAll(policy, s, []))
  {
  }

  /** With a clock that does not run backwards the attempts made are a run of the limits, and so keep
      its rates. */
  lemma {:induction false} TryAllIsRun(policy: Policy, s: State, attempts: seq<Attempt>) returns (n: nat)
    requires InOrder(attempts, s.clock)
    ensures MadeUpTo(policy, s, attempts, n, TryAll(policy, s, attempts))
    ensures TryAll(policy, s, attempts).st.clock <= if attempts == [] then s.clock else attempts[|attempts| - 1].now
  {
    if attempts == [] {
      NothingMade(policy, s);
      n := 0;
    } else {
      n := TryAllIsRun(policy, s, attempts[..|attempts| - 1]);
      n := MadeWhole(policy, s, attempts, n);
    }
  }

  /** What the events before the `i`th ask, and the `i`th of the first `j` macros. */
  function Tried(w: World, batch: seq<P.BusEvent>, i: nat, macros: seq<string>, j: nat): seq<Attempt>
    requires i < |batch| && j <= |macros|
  {
    AttemptsOf(w, batch, i, macros) + AttemptsFor(w, batch, i, macros, j)
  }

  function AttemptAt(w: World, macros: seq<string>, i: nat, j: nat): Attempt
    requires j < |macros|
  {
    Attempt(macros[j], w.readings(i, j), w.raises(i, j))
  }

  lemma TriedNothing(w: World, batch: seq<P.BusEvent>, i: nat, macros: seq<string>)
    requires i < |batch|
    ensures Tried(w, batch, i, macros, 0) == AttemptsOf(w, batch, i, macros)
  {
  }

  lemma TriedNext(w: World, batch: seq<P.BusEvent>, i: nat, macros: seq<string>, j: nat)
    requires i < |batch| && j < |macros|
    ensures Tried(w, batch, i, macros, j + 1)
            == if w.matches(batch[i], macros[j])
               then Tried(w, batch, i, macros, j) + [AttemptAt(w, macros, i, j)]
               else Tried(w, batch, i, macros, j)
  {
  }

  lemma Regroup(a: seq<Attempt>, b: seq<Attempt>, c: seq<Attempt>)
    ensures a + b + c == a + (b + c)
  {
  }

  /** What later macros, and later events, add to the attempts. */
  lemma {:induction false} TriedGrows(w: World, batch: seq<P.BusEvent>, i: nat, macros: seq<string>, j: nat, m: nat)
    returns (rest: seq<Attempt>)
    requires i < |batch| && j <= m <= |macros|
    ensures Tried(w, batch, i, macros, m) == Tried(w, batch, i, macros, j) + rest
    decreases m
  {
    if j == m {
      rest := [];
    } else {
      rest := TriedGrows(w, batch, i, macros, j, m - 1);
      TriedNext(w, batch, i, macros, m - 1);
      if w.matches(batch[i], macros[m - 1]) {
        Regroup(Tried(w, batch, i, macros, j), rest, [AttemptAt(w, macros, i, m - 1)]);
        rest := rest + [AttemptAt(w, macros, i, m - 1)];
      }
    }
  }

  lemma {:induction false} BatchGrows(w: World, batch: seq<P.BusEvent>, i: nat, n: nat, macros: seq<string>)
    returns (rest: seq<Attempt>)
    requires i <= n <= |batch|
    ensures AttemptsOf(w, batch, n, macros) == AttemptsOf(w, batch, i, macros) + rest
    decreases n
  {
    if i == n {
      rest := [];
    } else {
      rest := BatchGrows(w, batch, i, n - 1, macros);
      rest := rest + AttemptsFor(w, batch, n - 1, macros, |macros|);
    }
  }

  lemma EventIsOver(w: World, batch: seq<P.BusEvent>, i: nat, macros: seq<string>, j: nat, policy: Policy, s: State)
    requires i < |batch| && j <= |macros| && TryAll(policy, s, Tried(w, batch, i, macros, j)).raised
    ensures TryAll(policy, s, AttemptsOf(w, batch, i + 1, macros)) == TryAll(policy, s, Tried(w, batch, i, macros, j))
  {
    var rest := TriedGrows(w, batch, i, macros, j, |macros|);
    RaisedIsOver(policy, s, Tried(w, batch, i, macros, j), rest);
  }

  lemma BatchIsOver(w: World, batch: seq<P.BusEvent>, i: nat, macros: seq<string>, policy: Policy, s: State)
    requires i <= |batch| && TryAll(policy, s, AttemptsOf(w, batch, i, macros)).raised
    ensures TryAll(policy, s, AttemptsOf(w, batch, |batch|, macros))
            == TryAll(policy, s, AttemptsOf(w, batch, i, macros))
  {
    var rest := BatchGrows(w, batch, i, |batch|, macros);
    RaisedIsOver(policy, s, AttemptsOf(w, batch, i, macros), rest);
  }

  // ---------------------------------------------------------------- the order of a step

  /** Clock readings do not decrease in the order they are taken. */
  ghost predicate Steady(w: World) {
    forall i: nat :: SteadyAt(w, i)
  }

  /** Nor from one macro to a later one, or from event `i` to the next. */
  ghost predicate SteadyAt(w: World, i: nat) {
    && (forall j: nat, k: nat :: j <= k ==> w.readings(i, j) <= w.readings(i, k))
    && (forall j: nat :: w.readings(i, j) <= w.readings(i + 1, 0))
  }

  /** All attempts lie between two times, in order. */
  predicate Within(attempts: seq<Attempt>, start: Time, end: Time) {
    start <= end && InOrder(attempts, start) && forall i | 0 <= i < |attempts| :: attempts[i].now <= end
  }

  lemma WithinConcat(a: seq<Attempt>, b: seq<Attempt>, start: Time, middle: Time, end: Time)
    requires Within(a, start, middle) && Within(b, middle, end)
    ensures Within(a + b, start, end)
  {
  }

  lemma {:induction false} EventInOrder(w: World, batch: seq<P.BusEvent>, i: nat, macros: seq<string>, m: nat)
    requires i < |batch| && m <= |macros| && SteadyAt(w, i)
    ensures Within(AttemptsFor(w, batch, i, macros, m), w.readings(i, 0), w.readings(i, m))
  {
    if m > 0 {
      EventInOrder(w, batch, i, macros, m - 1);
      var last := if w.matches(batch[i], macros[m - 1]) then [AttemptAt(w, macros, i, m - 1)] else [];
      WithinConcat(AttemptsFor(w, batch, i, macros, m - 1), last,
                   w.readings(i, 0), w.readings(i, m - 1), w.readings(i, m));
    }
  }

  lemma {:induction false} BatchInOrder(w: World, batch: seq<P.BusEvent>, n: nat, macros: seq<string>)
    requires n <= |batch| && Steady(w)
    ensures Within(AttemptsOf(w, batch, n, macros), w.readings(0, 0), w.readings(n, 0))
  {
    if n > 0 {
      var i := n - 1;
      assert SteadyAt(w, i);
      BatchInOrder(w, batch, i, macros);
      EventInOrder(w, batch, i, macros, |macros|);
      WithinConcat(AttemptsOf(w, batch, i, macros), AttemptsFor(w, batch, i, macros, |macros|),
                   w.readings(0, 0), w.readings(i, 0), w.readings(n, 0));
    }
  }

  /** So what a step of the trigger manager does with a batch is a run of the limits, too. */
  lemma BatchIsRun(policy: Policy, s: State, w: World, batch: seq<P.BusEvent>, macros: seq<string>) returns (n: nat)
    requires Steady(w) && s.clock <= w.readings(0, 0)
    ensures var attempts := AttemptsOf(w, batch, |batch|, macros);
            MadeUpTo(policy, s, attempts, n, TryAll(policy, s, attempts))
  {
    BatchInOrder(w, batch, |batch|, macros);
    n := TryAllIsRun(policy, s, AttemptsOf(w, batch, |batch|, macros));
  }

  class TriggerManager {
    const bus: P.EventBus
    const policy: Policy
    var cursor: nat
    var store: Store
    ghost var fires: map<string, seq<Time>>
    ghost var clock: Time

    ghost function View(): State
      reads this
    {
      State(store, fires, clock)
    }

    constructor (bus: P.EventBus, policy: Policy)
      ensures this.bus == bus && this.policy == policy && cursor == 0 && View() == EMPTY
    {
      this.bus, this.policy := bus, policy;
      cursor, store, fires, clock := 0, map[], map[], 0.0;
    }

    /** A matching pair of event and macro: hold the macro against its limits, record, and run it. */
    method TryPair(a: Attempt, firedBefore: seq<string>) returns (fired: seq<string>, raised: bool)
      modifies `store, `fires, `clock
      ensures End(View(), fired, raised) == TryNext(policy, End(old(View()), firedBefore, false), a)
    {
      fired, raised := firedBefore, false;
      var allowed := Allow(policy(a.name), a.now, HistoryOf(store, a.name));
      clock := a.now;
      if allowed {
        store := Record(store, a.name, a.now);
        fires := fires[a.name := HistoryOf(fires, a.name) + [a.now]];
        if a.raises {
          return fired, true;
        }
        fired := fired + [a.name];
      }
    }

    /** One event of the batch, held against every macro. */
    method StepEvent(macros: seq<string>, w: World, batch: seq<P.BusEvent>, i: nat, firedBefore: seq<string>,
                     ghost start: State)
      returns (fired: seq<string>, raised: bool)
      requires i < |batch|
      requires TryAll(policy, start, AttemptsOf(w, batch, i, macros)) == End(View(), firedBefore, false)
      modifies `store, `fires, `clock
      ensures TryAll(policy, start, AttemptsOf(w, batch, i + 1, macros)) == End(View(), fired, raised)
    {
      fired, raised := firedBefore, false;
      TriedNothing(w, batch, i, macros);
      for j := 0 to |macros|
        invariant TryAll(policy, start, Tried(w, batch, i, macros, j)) == End(View(), fired, false)
      {
        TriedNext(w, batch, i, macros, j);
        if w.matches(batch[i], macros[j]) {
          var a := AttemptAt(w, macros, i, j);
          TryAllNext(policy, start, Tried(w, batch, i, macros, j), a);
          fired, raised := TryPair(a, fired);
          if raised {
            EventIsOver(w, batch, i, macros, j + 1, policy, start);
            return;
          }
        }
      }
      raised := false;
    }

    /** The events of a batch, one after the other; None if a run raised. */
    method StepEvents(macros: seq<string>, w: World, batch: seq<P.BusEvent>) returns (fired: seq<string>, raised: bool)
      modifies `store, `fires, `clock
      ensures TryAll(policy, old(View()), AttemptsOf(w, batch, |batch|, macros)) == End(View(), fired, raised)
    {
      hide TryNext;
      fired, raised := [], false;
      ghost var start := View();
      for i := 0 to |batch|
        invariant TryAll(policy, start, AttemptsOf(w, batch, i, macros)) == End(View(), fired, false)
      {
        fired, raised := StepEvent(macros, w, batch, i, fired, start);
        if raised {
          BatchIsOver(w, batch, i + 1, macros, policy, start);
          return;
        }
      }
      raised := false;
    }

    /** One step: the cursor moves over the batch first, then every event is held against every
        macro.  The first run that raises ends the step (None): its fire is recorded, and nothing after
        it is handled. */
    method Step(macros: seq<string>, w: World) returns (fired: Option<seq<string>>)
      modifies this
      ensures cursor == P.BusPoll(bus.events, old(cursor), 100).1
      ensures var batch := P.BusPoll(bus.events, old(cursor), 100).0;
              var end := TryAll(policy, old(View()), AttemptsOf(w, batch, |batch|, macros));
              View() == end.st && fired == if end.raised then None else Some(end.fired)
    {
      var batch: seq<P.BusEvent>;
      batch, cursor := bus.Poll(cursor, 100);
      var names, raised := StepEvents(macros, w, batch);
      fired := if raised then None else Some(names);
    }
  }
}
