/** When scheduled macros fire: the next scheduled instant, and the scheduler that arms and fires.
    Local time is a count of microseconds from a midnight that began a Monday, free of DST. */
module Schedule {
  import opened Common
  import NativeTree
  import NativeLaws

  const SECOND := 1_000_000
  const MINUTE := 60 * SECOND
  const DAY := 1440 * MINUTE

  /** `at` is the empty string when the key is absent; an absent and an empty weekday list mean
      the same to `NextFire`. */
  datatype Spec =
    | AtTime(at: string, weekdays: seq<int>)
    | Interval(everySeconds: Time)
    | Unscheduled

  datatype Fault = BadClock | BadWeekdays | BadInterval

  // ---------------------------------------------------------------- hh:mm

  datatype Clock = Clock(hour: nat, minute: nat)

  /** Where the first colon is, or the length when there is none. */
  function FirstColon(s: string): (k: nat)
    ensures k <= |s| && ':' !in s[..k] && (k < |s| ==> s[k] == ':')
  {
    if s == [] || s[0] == ':' then 0
    else
      var k := FirstColon(s[1..]);
      assert s[..k + 1] == [s[0]] + s[1..][..k];
      k + 1
  }

  /** Exactly two integers around one colon, in the ranges of a clock; None where parsing raises. */
  function ParseClock(at: string): (c: Option<Clock>)
    ensures c.Some? ==> c.value.hour < 24 && c.value.minute < 60
  {
    var k := FirstColon(at);
    if k == |at| || ':' in at[k + 1..] then None
    else
      var h, m := NativeTree.ParseInt(at[..k]), NativeTree.ParseInt(at[k + 1..]);
      if h.Some? && m.Some? && 0 <= h.value < 24 && 0 <= m.value < 60 then Some(Clock(h.value, m.value)) else None
  }

  /** The text is an hour and a minute in the ranges of a clock, as numerals with one colon between. */
  predicate Spells(at: string, hour: string, minute: string, c: Clock) {
    && at == hour + ":" + minute && ':' !in hour && ':' !in minute
    && NativeLaws.Means(hour, c.hour) && NativeLaws.Means(minute, c.minute)
    && c.hour <= 23 && c.minute <= 59
  }

  lemma {:induction false} ColonOf(at: string, hour: string, minute: string)
    requires at == hour + ":" + minute && ':' !in hour
    ensures FirstColon(at) == |hour| && at[..|hour|] == hour && at[|hour| + 1..] == minute
  {
    if hour != [] {
      assert at[0] == hour[0] && hour[0] in hour;
      ColonOf(at[1..], hour[1..], minute);
    }
  }

  lemma ClockReads(at: string, hour: string, minute: string, c: Clock)
    requires Spells(at, hour, minute, c)
    ensures ParseClock(at) == Some(c)
  {
    ColonOf(at, hour, minute);
    NativeLaws.MeansExactly(hour, c.hour);
    NativeLaws.MeansExactly(minute, c.minute);
    hide NativeTree.ParseInt;
    hide NativeLaws.Means;
    hide FirstColon;
  }

  lemma ClockSplits(at: string, hour: string, minute: string, c: Clock)
    requires ParseClock(at) == Some(c)
    requires hour == at[..FirstColon(at)] && FirstColon(at) < |at| && minute == at[FirstColon(at) + 1..]
    ensures Spells(at, hour, minute, c)
  {
    NativeLaws.MeansExactly(hour, c.hour);
    NativeLaws.MeansExactly(minute, c.minute);
    hide NativeTree.ParseInt;
    hide NativeLaws.Means;
    hide FirstColon;
  }

  lemma ClockParts(at: string) returns (hour: string, minute: string)
    requires ParseClock(at).Some?
    ensures Spells(at, hour, minute, ParseClock(at).value)
  {
    hour, minute := at[..FirstColon(at)], at[FirstColon(at) + 1..];
    ClockSplits(at, hour, minute, ParseClock(at).value);
  }

  /** A clock is read from exactly the texts that spell it. */
  lemma ClockIsRead(at: string, c: Clock)
    ensures ParseClock(at) == Some(c) <==> exists hour, minute :: Spells(at, hour, minute, c)
  {
    hide ParseClock;
    hide Spells;
    if ParseClock(at) == Some(c) {
      var hour, minute := ClockParts(at);
    }
    if hour, minute :| Spells(at, hour, minute, c) {
      ClockReads(at, hour, minute, c);
    }
  }

  predicate ValidWeekdays(weekdays: seq<int>) {
    forall i | 0 <= i < |weekdays| :: 0 <= weekdays[i] <= 6
  }

  function Validate(spec: Spec): seq<Fault> {
    match spec
    case AtTime(at, weekdays) =>
      if ParseClock(at).None? then [BadClock] else if !ValidWeekdays(weekdays) then [BadWeekdays] else []
    case Interval(every) => if every <= 0.0 then [BadInterval] else []
    case Unscheduled => []
  }

  // ---------------------------------------------------------------- the calendar

  function TimeOfDay(t: int): int {
    t % DAY
  }

  function Weekday(t: int): int {
    (t / DAY) % 7
  }

  function Offset(c: Clock): int {
    (60 * c.hour + c.minute) * MINUTE
  }

  /** `t` is hh:mm:00 on an allowed weekday: a day has 86400 seconds, and day 0 is a Monday. */
  predicate IsScheduled(c: Clock, weekdays: seq<int>, t: int) {
    && t % 86_400_000_000 == (3600 * c.hour + 60 * c.minute) * 1_000_000
    && (weekdays == [] || (t / 86_400_000_000) % 7 in weekdays)
  }

  lemma ScheduledOn(c: Clock, weekdays: seq<int>, t: int)
    ensures IsScheduled(c, weekdays, t) <==>
              TimeOfDay(t) == Offset(c) && (weekdays == [] || Weekday(t) in weekdays)
  {
  }

  function Today(c: Clock, now: int): int {
    now - TimeOfDay(now) + Offset(c)
  }

  /** The first hh:mm:00 after `now`, on any weekday. */
  function Upcoming(c: Clock, now: int): int {
    if Today(c, now) <= now then Today(c, now) + DAY else Today(c, now)
  }

  /** At most `tries` days onward, until the weekday is allowed. */
  function Advance(weekdays: seq<int>, target: int, now: int, tries: nat): int
    decreases tries
  {
    if tries == 0 || (Weekday(target) in weekdays && target > now) then target
    else Advance(weekdays, target + DAY, now, tries - 1)
  }

  function Target(c: Clock, weekdays: seq<int>, now: int): int {
    if weekdays == [] then Upcoming(c, now) else Advance(weekdays, Upcoming(c, now), now, 8)
  }

  function Seconds(t: int): Time {
    t as real / 1_000_000.0
  }

  datatype Delay = After(seconds: Time) | Never | Raises

  function NextFire(spec: Spec, now: int): Delay {
    match spec
    case AtTime(at, weekdays) =>
      var c := ParseClock(at);
      if c.None? then Raises else After(Seconds(Target(c.value, weekdays, now) - now))
    case Interval(every) => After(every)
    case Unscheduled => Never
  }

  method ComputeNextFire(spec: Spec, now: int) returns (delay: Delay)
    ensures delay == NextFire(spec, now)
  {
    match spec {
      case Unscheduled => return Never;
      case Interval(every) => return After(every);
      case AtTime(at, weekdays) =>
        var c := ParseClock(at);
        if c.None? { return Raises; }
        var target := Today(c.value, now);
        if target <= now {
          target := target + DAY;
        }
        if weekdays != [] {
          target := AdvanceToDay(weekdays, target, now);
        }
        return After(Seconds(target - now));
    }
  }

  /** The loop over the days, at most eight of them. */
  method AdvanceToDay(weekdays: seq<int>, start: int, now: int) returns (target: int)
    ensures target == Advance(weekdays, start, now, 8)
  {
    target := start;
    for i := 0 to 8
      invariant Advance(weekdays, target, now, 8 - i) == Advance(weekdays, start, now, 8)
    {
      if Weekday(target) in weekdays && target > now { break; }
      target := target + DAY;
    }
  }

  // ---------------------------------------------------------------- the next fire is the least

  lemma UpcomingIsNext(c: Clock, now: int)
    requires c.hour < 24 && c.minute < 60
    ensures var t := Upcoming(c, now);
            now < t <= now + DAY && TimeOfDay(t) == Offset(c)
  {
    var day := now / DAY;
    assert now == day * DAY + TimeOfDay(now);
  }

  lemma DaysOn(t: int, k: int)
    ensures TimeOfDay(t + k * DAY) == TimeOfDay(t) && (t + k * DAY) / DAY == t / DAY + k
  {
    assert t + k * DAY == (t / DAY + k) * DAY + TimeOfDay(t);
  }

  /** The search stops `k` days on: every day before is refused, and the day reached is allowed
      unless the tries ran out. */
  lemma {:induction false} AdvanceStops(weekdays: seq<int>, target: int, now: int, tries: nat) returns (k: nat)
    requires now < target
    ensures k <= tries && Advance(weekdays, target, now, tries) == target + k * DAY
    ensures forall j | 0 <= j < k :: Weekday(target + j * DAY) !in weekdays
    ensures k < tries ==> Weekday(target + k * DAY) in weekdays
    decreases tries
  {
    if tries == 0 || Weekday(target) in weekdays {
      return 0;
    }
    var later := AdvanceStops(weekdays, target + DAY, now, tries - 1);
    forall j | 0 <= j < later + 1
      ensures Weekday(target + j * DAY) !in weekdays
    {
      if j > 0 {
        assert target + j * DAY == target + DAY + (j - 1) * DAY;
      }
    }
    return later + 1;
  }

  /** Some listed weekday exists in a week. */
  predicate HasRealDay(weekdays: seq<int>) {
    exists i | 0 <= i < |weekdays| :: 0 <= weekdays[i] <= 6
  }

  lemma RealDayComes(weekdays: seq<int>, target: int) returns (k: nat)
    requires HasRealDay(weekdays)
    ensures k <= 6 && Weekday(target + k * DAY) in weekdays
  {
    var i :| 0 <= i < |weekdays| && 0 <= weekdays[i] <= 6;
    k := (weekdays[i] - Weekday(target)) % 7;
    DaysOn(target, k);
    WeekWraps(target / DAY, weekdays[i]);
  }

  lemma WeekWraps(day: int, wanted: int)
    requires 0 <= wanted <= 6
    ensures (day + (wanted - day % 7) % 7) % 7 == wanted
  {
  }

  /** The target is the first scheduled instant after now, within a week. */
  lemma TargetIsLeast(c: Clock, weekdays: seq<int>, now: int)
    requires c.hour < 24 && c.minute < 60 && (weekdays == [] || HasRealDay(weekdays))
    ensures var t := Target(c, weekdays, now);
            && now < t <= now + 7 * DAY && IsScheduled(c, weekdays, t)
            && forall s | now < s < t :: !IsScheduled(c, weekdays, s)
  {
    var first := Upcoming(c, now);
    UpcomingIsNext(c, now);
    var k := 0;
    if weekdays != [] {
      k := AdvanceStops(weekdays, first, now, 8);
      var hit := RealDayComes(weekdays, first);
      assert k <= hit;
    }
    DaysOn(first, k);
    ScheduledOn(c, weekdays, first + k * DAY);
    hide IsScheduled;
    forall s | now < s < first + k * DAY
      ensures !IsScheduled(c, weekdays, s)
    {
      NotBetween(c, weekdays, now, k, s);
    }
  }

  /** Before the day reached only refused days have the time of day. */
  lemma NotBetween(c: Clock, weekdays: seq<int>, now: int, k: nat, s: int)
    requires c.hour < 24 && c.minute < 60 && (k > 0 ==> weekdays != [])
    requires forall j | 0 <= j < k :: Weekday(Upcoming(c, now) + j * DAY) !in weekdays
    requires now < s < Upcoming(c, now) + k * DAY
    ensures !IsScheduled(c, weekdays, s)
  {
    var first := Upcoming(c, now);
    UpcomingIsNext(c, now);
    ScheduledOn(c, weekdays, s);
    hide IsScheduled;
    if TimeOfDay(s) == Offset(c) {
      var j := s / DAY - first / DAY;
      assert 0 <= j < k;
      assert Weekday(first + j * DAY) !in weekdays;
    }
  }

  /** Whatever list was given, the instant computed is a scheduled one exactly when the list is
      empty or names a real weekday. */
  lemma TargetIsScheduledExactly(c: Clock, weekdays: seq<int>, now: int)
    requires c.hour < 24 && c.minute < 60
    ensures IsScheduled(c, weekdays, Target(c, weekdays, now)) <==> weekdays == [] || HasRealDay(weekdays)
  {
    if weekdays == [] || HasRealDay(weekdays) {
      TargetIsLeast(c, weekdays, now);
    }
  }

  lemma ValidTargets(spec: Spec, now: int)
    requires spec.AtTime? && Validate(spec) == []
    ensures ParseClock(spec.at).Some? && (spec.weekdays == [] || HasRealDay(spec.weekdays))
  {
    if spec.weekdays != [] {
      assert 0 <= spec.weekdays[0] <= 6;
    }
  }

  /** For a validated spec the delay is the least positive one to a scheduled instant. */
  lemma NextFireIsLeast(spec: Spec, now: int)
    requires spec.AtTime? && Validate(spec) == []
    ensures var c := ParseClock(spec.at);
            && c.Some?
            && exists t {:trigger IsScheduled(c.value, spec.weekdays, t)} ::
                 && NextFire(spec, now) == After((t - now) as real / 1_000_000.0)
                 && now < t <= now + 7 * DAY && IsScheduled(c.value, spec.weekdays, t)
                 && forall s | now < s < t :: !IsScheduled(c.value, spec.weekdays, s)
  {
    ValidTargets(spec, now);
    TargetIsLeast(ParseClock(spec.at).value, spec.weekdays, now);
  }

  ghost predicate HasClock(at: string) {
    exists hour, minute, c :: Spells(at, hour, minute, c)
  }

  predicate IsWeekday(d: int) {
    d == 0 || d == 1 || d == 2 || d == 3 || d == 4 || d == 5 || d == 6
  }

  predicate AllWeekdays(weekdays: seq<int>) {
    forall i | 0 <= i < |weekdays| :: IsWeekday(weekdays[i])
  }

  lemma WeekdaysExact(weekdays: seq<int>)
    ensures ValidWeekdays(weekdays) <==> AllWeekdays(weekdays)
  {
  }

  lemma HasClockExact(at: string)
    ensures ParseClock(at).Some? <==> HasClock(at)
  {
    hide ParseClock;
    hide Spells;
    if ParseClock(at).Some? {
      var hour, minute := ClockParts(at);
    }
    if hour, minute, c :| Spells(at, hour, minute, c) {
      ClockReads(at, hour, minute, c);
    }
  }

  /** What the validator says of each kind of trigger, and which ones it accepts without a next
      fire or with one that raises. */
  lemma ValidateIsExact(spec: Spec, now: int)
    ensures match spec
            case AtTime(at, weekdays) =>
              && Validate(spec) == (if !HasClock(at) then [BadClock]
                                    else if AllWeekdays(weekdays) then []
                                    else [BadWeekdays])
              && (NextFire(spec, now).Raises? <==> !HasClock(at)) && (HasClock(at) ==> NextFire(spec, now).After?)
            case Interval(every) =>
              Validate(spec) == (if every > 0.0 then [] else [BadInterval]) && NextFire(spec, now) == After(every)
            case Unscheduled => Validate(spec) == [] && NextFire(spec, now) == Never
  {
    if spec.AtTime? {
      HasClockExact(spec.at);
      WeekdaysExact(spec.weekdays);
    }
    hide HasClock;
    hide ParseClock;
    hide ValidWeekdays;
    hide AllWeekdays;
    hide Target;
    hide Seconds;
  }

  // ---------------------------------------------------------------- arming and firing one macro

  /** One call that comes to the macro, and whether a run that it starts would raise. */
  datatype Turn = Turn(now: int, raises: bool)

  /** What a turn leaves: None is armed before the first, which only arms.  A run that was started and
      has returned is a fire; one that raised leaves the macro armed as it was. */
  datatype Alarm = Alarm(armed: Option<Time>, started: bool, fired: bool)

  function Tick(spec: Spec, armed: Option<Time>, turn: Turn): Alarm {
    var delay := NextFire(spec, turn.now);
    if !delay.After? then Alarm(armed, false, false)
    else if armed.None? then Alarm(Some(Seconds(turn.now) + delay.seconds), false, false)
    else if Seconds(turn.now) < armed.value then Alarm(armed, false, false)
    else if turn.raises then Alarm(armed, true, false)
    else Alarm(Some(Seconds(turn.now) + delay.seconds), true, true)
  }

  /** Where a run of turns leaves the macro. */
  function Ticks(spec: Spec, turns: seq<Turn>): Alarm {
    if turns == [] then Alarm(None, false, false)
    else Tick(spec, Ticks(spec, turns[..|turns| - 1]).armed, turns[|turns| - 1])
  }

  /** The turns at which the macro fired. */
  function Fires(spec: Spec, turns: seq<Turn>): seq<int> {
    if turns == [] then []
    else Fires(spec, turns[..|turns| - 1]) + if Ticks(spec, turns).fired then [turns[|turns| - 1].now] else []
  }

  /** The turns at which a run of the macro was started. */
  function Starts(spec: Spec, turns: seq<Turn>): seq<int> {
    if turns == [] then []
    else Starts(spec, turns[..|turns| - 1]) + if Ticks(spec, turns).started then [turns[|turns| - 1].now] else []
  }

  /** The turn the armed time was computed at: the latest fire, or the first turn. */
  function Since(spec: Spec, turns: seq<Turn>): int
    requires turns != []
  {
    var fires := Fires(spec, turns);
    if fires == [] then turns[0].now else fires[|fires| - 1]
  }

  /** The specs that always have a next fire. */
  predicate Recurs(spec: Spec) {
    spec.Interval? || (spec.AtTime? && ParseClock(spec.at).Some?)
  }

  function ArmedAt(spec: Spec, since: int): Option<Time>
    requires Recurs(spec)
  {
    Some(Seconds(since) + NextFire(spec, since).seconds)
  }

  lemma {:induction false} ArmedSince(spec: Spec, turns: seq<Turn>)
    requires turns != [] && Recurs(spec)
    ensures Ticks(spec, turns).armed == ArmedAt(spec, Since(spec, turns))
  {
    var front, last := turns[..|turns| - 1], turns[|turns| - 1];
    if front == [] {
      assert Ticks(spec, front) == Alarm(None, false, false) && Fires(spec, front) == [];
    } else {
      ArmedSince(spec, front);
      assert Since(spec, turns) == if Ticks(spec, turns).fired then last.now else Since(spec, front);
    }
  }

  /** A turn starts a run of a validated time-of-day macro exactly when a scheduled instant has come
      up since its latest fire (or, before any, since it was armed), and it fires if that run returns. */
  lemma FiresExactly(spec: Spec, turns: seq<Turn>, turn: Turn)
    requires spec.AtTime? && Validate(spec) == [] && turns != []
    ensures ParseClock(spec.at).Some?
    ensures var alarm := Tick(spec, Ticks(spec, turns).armed, turn);
            && (alarm.started <==>
                  exists s :: Since(spec, turns) < s <= turn.now
                              && IsScheduled(ParseClock(spec.at).value, spec.weekdays, s))
            && (alarm.fired <==> alarm.started && !turn.raises)
  {
    ValidTargets(spec, turn.now);
    ArmedSince(spec, turns);
    var c, since := ParseClock(spec.at).value, Since(spec, turns);
    TargetIsLeast(c, spec.weekdays, since);
    SecondsOrder(Target(c, spec.weekdays, since), turn.now);
  }

  /** The first call only arms, and a macro without a schedule is never started. */
  lemma NothingStartsUnarmed(spec: Spec, turns: seq<Turn>, turn: Turn)
    requires turns == [] || spec.Unscheduled?
    ensures var alarm := Tick(spec, Ticks(spec, turns).armed, turn); !alarm.started && !alarm.fired
  {
  }

  lemma SecondsOrder(a: int, b: int)
    ensures Seconds(a) <= Seconds(b) <==> a <= b
  {
  }

  /** Between two consecutive fires, and no later than the second, lies a scheduled instant. */
  lemma {:induction false} FiresFollowSchedule(spec: Spec, turns: seq<Turn>, k: nat)
    requires spec.AtTime? && Validate(spec) == [] && k + 1 < |Fires(spec, turns)|
    ensures ParseClock(spec.at).Some?
    ensures exists s :: Fires(spec, turns)[k] < s <= Fires(spec, turns)[k + 1]
                        && IsScheduled(ParseClock(spec.at).value, spec.weekdays, s)
  {
    var front := turns[..|turns| - 1];
    if k + 1 < |Fires(spec, front)| {
      FiresFollowSchedule(spec, front, k);
    } else {
      FiresExactly(spec, front, turns[|turns| - 1]);
    }
  }

  /** A turn starts a run of an interval macro exactly when the interval has passed since its latest
      fire (or, before any, since it was armed), and it fires if that run returns. */
  lemma IntervalFiresExactly(spec: Spec, turns: seq<Turn>, turn: Turn)
    requires spec.Interval? && turns != []
    ensures var alarm := Tick(spec, Ticks(spec, turns).armed, turn);
            && (alarm.started <==>
                  (turn.now - Since(spec, turns)) as real >= spec.everySeconds * 1_000_000.0)
            && (alarm.fired <==> alarm.started && !turn.raises)
  {
    ArmedSince(spec, turns);
  }

  /** Fires of an interval macro are at least the interval apart. */
  lemma {:induction false} IntervalFiresAreSpaced(spec: Spec, turns: seq<Turn>, k: nat)
    requires spec.Interval? && k + 1 < |Fires(spec, turns)|
    ensures (Fires(spec, turns)[k + 1] - Fires(spec, turns)[k]) as real >= spec.everySeconds * 1_000_000.0
  {
    var front := turns[..|turns| - 1];
    if k + 1 < |Fires(spec, front)| {
      IntervalFiresAreSpaced(spec, front, k);
    } else {
      IntervalFiresExactly(spec, front, turns[|turns| - 1]);
    }
  }

  /** A run that raised is started again at the very next turn, however long the interval and
      whenever the next scheduled instant. */
  lemma RaisingRunIsRepeated(spec: Spec, turns: seq<Turn>, next: Turn)
    requires turns != [] && Recurs(spec)
    requires Ticks(spec, turns).started && !Ticks(spec, turns).fired && turns[|turns| - 1].now <= next.now
    ensures Tick(spec, Ticks(spec, turns).armed, next).started
  {
    SecondsOrder(turns[|turns| - 1].now, next.now);
  }

  // ---------------------------------------------------------------- the scheduler

  datatype Entry = Entry(name: string, spec: Spec)

  type ArmedMap = map<string, Time>

  function ArmedOf(armed: ArmedMap, name: string): Option<Time> {
    if name in armed then Some(armed[name]) else None
  }

  datatype Sweep = Sweep(armed: ArmedMap, started: seq<string>, fired: seq<string>, raised: bool)

  /** A call of the scheduler: the macros enabled at that moment, and those whose run would raise. */
  datatype Call = Call(entries: seq<Entry>, now: int, raises: set<string>)

  function TurnOf(call: Call, e: Entry): Turn {
    Turn(call.now, e.name in call.raises)
  }

  function DueStep(before: Sweep, e: Entry, call: Call): Sweep {
    if before.raised then before
    else if NextFire(e.spec, call.now).Raises? then before.(raised := true)
    else
      var alarm := Tick(e.spec, ArmedOf(before.armed, e.name), TurnOf(call, e));
      Sweep(if alarm.armed.Some? then before.armed[e.name := alarm.armed.value] else before.armed,
            before.started + (if alarm.started then [e.name] else []),
            before.fired + (if alarm.fired then [e.name] else []),
            alarm.started && !alarm.fired)
  }

  /** The first `n` enabled macros.  A spec that cannot be parsed and a run that raises end the call
      by an exception. */
  function Due(call: Call, n: nat, armed: ArmedMap): Sweep
    requires n <= |call.entries|
  {
    if n == 0 then Sweep(armed, [], [], false)
    else DueStep(Due(call, n - 1, armed), call.entries[n - 1], call)
  }

  function DueAll(call: Call, armed: ArmedMap): Sweep {
    Due(call, |call.entries|, armed)
  }

  /** Macros are stored in files called after them, so no name is listed twice. */
  predicate DistinctNames(entries: seq<Entry>) {
    forall i, j | 0 <= i < j < |entries| :: entries[i].name != entries[j].name
  }

  predicate AllValid(entries: seq<Entry>) {
    forall i | 0 <= i < |entries| :: Validate(entries[i].spec) == []
  }

  /** The macro is due and its run raises, judged by when it is armed for before the call. */
  predicate Breaks(e: Entry, call: Call, armed: ArmedMap) {
    var alarm := Tick(e.spec, ArmedOf(armed, e.name), TurnOf(call, e));
    alarm.started && !alarm.fired
  }

  /** One of the first `n` macros breaks the call. */
  predicate Broken(call: Call, n: nat, armed: ArmedMap)
    requires n <= |call.entries|
  {
    exists j | 0 <= j < n :: Breaks(call.entries[j], call, armed)
  }

  /** What `sweep` has done for macro `e`, in terms of where `e` was before the call. */
  predicate Served(sweep: Sweep, e: Entry, before: Option<Time>, turn: Turn) {
    var alarm := Tick(e.spec, before, turn);
    && ArmedOf(sweep.armed, e.name) == alarm.armed
    && (e.name in sweep.started <==> alarm.started)
    && (e.name in sweep.fired <==> alarm.fired)
  }

  predicate Untouched(sweep: Sweep, name: string, before: Option<Time>) {
    ArmedOf(sweep.armed, name) == before && name !in sweep.started && name !in sweep.fired
  }

  /** A macro's step serves it, and is no business of any other. */
  lemma StepServes(before: Sweep, e: Entry, call: Call, other: Entry)
    requires !before.raised && Validate(e.spec) == []
    ensures var after := DueStep(before, e, call);
            && (e.name !in before.started && e.name !in before.fired ==>
                  Served(after, e, ArmedOf(before.armed, e.name), TurnOf(call, e)))
            && (other.name != e.name ==>
                  && ArmedOf(after.armed, other.name) == ArmedOf(before.armed, other.name)
                  && (other.name in after.started <==> other.name in before.started)
                  && (other.name in after.fired <==> other.name in before.fired))
  {
  }

  /** What the first `n` steps of a call have done for macro `k`. */
  predicate TreatedAlone(call: Call, n: nat, armed: ArmedMap, k: nat)
    requires k < |call.entries| && n <= |call.entries|
  {
    var sweep, e := Due(call, n, armed), call.entries[k];
    if k < n && !Broken(call, k, armed) then Served(sweep, e, ArmedOf(armed, e.name), TurnOf(call, e))
    else Untouched(sweep, e.name, ArmedOf(armed, e.name))
  }

  lemma BrokenNext(call: Call, n: nat, armed: ArmedMap)
    requires n < |call.entries|
    ensures Broken(call, n + 1, armed) <==> Broken(call, n, armed) || Breaks(call.entries[n], call, armed)
  {
  }

  lemma NextIsServed(call: Call, n: nat, armed: ArmedMap, k: nat)
    requires k < |call.entries| && n < |call.entries| && DistinctNames(call.entries) && AllValid(call.entries)
    requires !Broken(call, n, armed) && !Due(call, n, armed).raised
    requires TreatedAlone(call, n, armed, k) && TreatedAlone(call, n, armed, n)
    ensures Due(call, n + 1, armed).raised <==> Breaks(call.entries[n], call, armed)
    ensures TreatedAlone(call, n + 1, armed, k)
  {
    StepServes(Due(call, n, armed), call.entries[n], call, call.entries[k]);
    assert k < n ==> call.entries[k].name != call.entries[n].name;
  }

  lemma BrokenIsOver(call: Call, n: nat, armed: ArmedMap, k: nat)
    requires k < |call.entries| && n < |call.entries|
    requires Broken(call, n, armed) && Due(call, n, armed).raised && TreatedAlone(call, n, armed, k)
    ensures Due(call, n + 1, armed) == Due(call, n, armed) && TreatedAlone(call, n + 1, armed, k)
  {
  }

  lemma NextIsTreated(call: Call, n: nat, armed: ArmedMap, k: nat)
    requires k < |call.entries| && n < |call.entries| && DistinctNames(call.entries) && AllValid(call.entries)
    requires Due(call, n, armed).raised <==> Broken(call, n, armed)
    requires TreatedAlone(call, n, armed, k) && TreatedAlone(call, n, armed, n)
    ensures Due(call, n + 1, armed).raised <==> Broken(call, n + 1, armed)
    ensures TreatedAlone(call, n + 1, armed, k)
  {
    BrokenNext(call, n, armed);
    if Broken(call, n, armed) {
      BrokenIsOver(call, n, armed, k);
    } else {
      NextIsServed(call, n, armed, k);
    }
  }

  lemma NothingYet(call: Call, armed: ArmedMap, k: nat)
    requires k < |call.entries|
    ensures !Due(call, 0, armed).raised && !Broken(call, 0, armed) && TreatedAlone(call, 0, armed, k)
  {
  }

  /** A call raises exactly when some listed macro is due and its run raises.  Macros listed after the
      first such one are untouched; that one and those before it are served as if each were alone. */
  lemma {:induction false} DueIsPerMacro(call: Call, n: nat, armed: ArmedMap, k: nat)
    requires k < |call.entries| && n <= |call.entries| && DistinctNames(call.entries) && AllValid(call.entries)
    ensures Due(call, n, armed).raised <==> Broken(call, n, armed)
    ensures TreatedAlone(call, n, armed, k)
    decreases n
  {
    if n == 0 {
      NothingYet(call, armed, k);
    } else {
      var before := n - 1;
      DueIsPerMacro(call, before, armed, k);
      DueIsPerMacro(call, before, armed, before);
      NextIsTreated(call, before, armed, k);
    }
  }

  function ArmedAfter(calls: seq<Call>): ArmedMap {
    if calls == [] then map[] else DueAll(calls[|calls| - 1], ArmedAfter(calls[..|calls| - 1])).armed
  }

  /** When `name` fired, over a run of calls. */
  function FiredAt(name: string, calls: seq<Call>): seq<int> {
    if calls == [] then []
    else
      var before, last := calls[..|calls| - 1], calls[|calls| - 1];
      FiredAt(name, before) + if name in DueAll(last, ArmedAfter(before)).fired then [last.now] else []
  }

  /** When a run of `name` was started, over a run of calls. */
  function StartedAt(name: string, calls: seq<Call>): seq<int> {
    if calls == [] then []
    else
      var before, last := calls[..|calls| - 1], calls[|calls| - 1];
      StartedAt(name, before) + if name in DueAll(last, ArmedAfter(before)).started then [last.now] else []
  }

  /** The call lists `e` and no macro listed before it is due with a run that raises. */
  predicate Reaches(call: Call, armed: ArmedMap, e: Entry) {
    exists k | 0 <= k < |call.entries| :: call.entries[k] == e && !Broken(call, k, armed)
  }

  /** The turns of `e`: the calls that reach it. */
  function Turns(e: Entry, calls: seq<Call>): seq<Turn> {
    if calls == [] then []
    else
      var before, last := calls[..|calls| - 1], calls[|calls| - 1];
      Turns(e, before) + if Reaches(last, ArmedAfter(before), e) then [TurnOf(last, e)] else []
  }

  /** No call lists `e.name` with another trigger. */
  predicate KeepsTrigger(e: Entry, entries: seq<Entry>) {
    forall i | 0 <= i < |entries| :: entries[i].name == e.name ==> entries[i] == e
  }

  predicate LegalCall(e: Entry, call: Call) {
    DistinctNames(call.entries) && AllValid(call.entries) && KeepsTrigger(e, call.entries)
  }

  lemma CallTreatsAlone(e: Entry, call: Call, armed: ArmedMap)
    requires LegalCall(e, call)
    ensures var sweep := DueAll(call, armed);
            if Reaches(call, armed, e) then Served(sweep, e, ArmedOf(armed, e.name), TurnOf(call, e))
            else Untouched(sweep, e.name, ArmedOf(armed, e.name))
  {
    if e in call.entries {
      var k :| 0 <= k < |call.entries| && call.entries[k] == e;
      DueIsPerMacro(call, |call.entries|, armed, k);
      assert forall j | 0 <= j < |call.entries| && call.entries[j] == e :: j == k;
    } else {
      UnlistedUntouched(e.name, call, |call.entries|, armed);
    }
  }

  lemma {:induction false} UnlistedUntouched(name: string, call: Call, n: nat, armed: ArmedMap)
    requires n <= |call.entries| && forall i | 0 <= i < |call.entries| :: call.entries[i].name != name
    ensures Untouched(Due(call, n, armed), name, ArmedOf(armed, name))
  {
    if n > 0 {
      UnlistedUntouched(name, call, n - 1, armed);
    }
  }

  /** Over any run of calls, with macros enabled and disabled in between, each macro is armed, started
      and fired as if the scheduler served it alone at the calls that reach it. */
  lemma {:induction false} SchedulerServesEachAlone(e: Entry, calls: seq<Call>)
    requires forall i | 0 <= i < |calls| :: LegalCall(e, calls[i])
    ensures ArmedOf(ArmedAfter(calls), e.name) == Ticks(e.spec, Turns(e, calls)).armed
    ensures FiredAt(e.name, calls) == Fires(e.spec, Turns(e, calls))
    ensures StartedAt(e.name, calls) == Starts(e.spec, Turns(e, calls))
  {
    if calls != [] {
      var before, last := calls[..|calls| - 1], calls[|calls| - 1];
      SchedulerServesEachAlone(e, before);
      CallTreatsAlone(e, last, ArmedAfter(before));
      var turns := Turns(e, before);
      if Reaches(last, ArmedAfter(before), e) {
        assert Turns(e, calls) == turns + [TurnOf(last, e)];
        assert (turns + [TurnOf(last, e)])[..|turns|] == turns;
      } else {
        assert Turns(e, calls) == turns;
      }
    }
  }

  /** `e` is listed first, is due by the time it is armed for, and its run raises. */
  predicate StuckOn(e: Entry, call: Call, armed: ArmedMap) {
    call.entries != [] && call.entries[0] == e && Breaks(e, call, armed)
  }

  lemma {:induction false} StuckCall(e: Entry, call: Call, n: nat, armed: ArmedMap)
    requires StuckOn(e, call, armed) && Validate(e.spec) == [] && 0 < n <= |call.entries|
    ensures Due(call, n, armed) == Sweep(armed, [e.name], [], true)
  {
    if n == 1 {
      var t := ArmedOf(armed, e.name).value;
      assert armed[e.name := t] == armed;
      assert Due(call, 0, armed) == Sweep(armed, [], [], false);
    } else {
      StuckCall(e, call, n - 1, armed);
    }
  }

  /** As long as its run raises, a due macro that is listed first is run at every call, and no other
      macro is armed, started or fired. */
  lemma {:induction false} RaisingRunStarvesOthers(e: Entry, calls: seq<Call>, later: seq<Call>, other: string)
    requires Validate(e.spec) == [] && other != e.name
    requires forall i | 0 <= i < |later| :: StuckOn(e, later[i], ArmedAfter(calls))
    ensures ArmedAfter(calls + later) == ArmedAfter(calls)
    ensures |StartedAt(e.name, calls + later)| == |StartedAt(e.name, calls)| + |later|
    ensures StartedAt(other, calls + later) == StartedAt(other, calls)
    ensures FiredAt(other, calls + later) == FiredAt(other, calls)
    ensures FiredAt(e.name, calls + later) == FiredAt(e.name, calls)
    decreases |later|
  {
    if later == [] {
      assert calls + later == calls;
    } else {
      var front, last := later[..|later| - 1], later[|later| - 1];
      assert (calls + later)[..|calls + later| - 1] == calls + front;
      RaisingRunStarvesOthers(e, calls, front, other);
      StuckCall(e, last, |last.entries|, ArmedAfter(calls));
    }
  }

  /** Such a run: two macros due every minute, of which the first raises.  The second never fires,
      though alone it would have fired at once. */
  lemma StarvedMacro(later: nat)
    ensures var bad, good := Entry("bad", Interval(60.0)), Entry("good", Interval(60.0));
            var first, next := Call([bad, good], 0, {}), Call([bad, good], MINUTE, {"bad"});
            var calls := [first] + seq(later, _ => next);
            && FiredAt("good", calls) == []
            && |StartedAt("bad", calls)| == later
            && Fires(good.spec, [Turn(0, false), Turn(MINUTE, false)]) == [MINUTE]
  {
    var bad, good := Entry("bad", Interval(60.0)), Entry("good", Interval(60.0));
    var first, next := Call([bad, good], 0, {}), Call([bad, good], MINUTE, {"bad"});
    ArmedFirst(bad, good, first);
    assert "bad" != "good" by { assert "bad"[0] == 'b'; }
    assert Breaks(bad, next, ArmedAfter([first]));
    RaisingRunStarvesOthers(bad, [first], seq(later, _ => next), "good");
    var turns := [Turn(0, false), Turn(MINUTE, false)];
    AloneFires(good.spec, turns);
  }

  lemma AloneFires(spec: Spec, turns: seq<Turn>)
    requires spec == Interval(60.0) && turns == [Turn(0, false), Turn(MINUTE, false)]
    ensures Fires(spec, turns) == [MINUTE]
  {
    var first := turns[..1];
    assert first == [Turn(0, false)] && first[..0] == [];
    assert Ticks(spec, first[..0]) == Alarm(None, false, false) && Fires(spec, first[..0]) == [];
    assert Ticks(spec, first) == Alarm(Some(60.0), false, false);
    assert Fires(spec, first) == [];
    assert Ticks(spec, turns).fired;
  }

  lemma ArmedFirst(a: Entry, b: Entry, call: Call)
    requires a.spec == b.spec == Interval(60.0) && a.name != b.name && call == Call([a, b], 0, {})
    ensures ArmedOf(ArmedAfter([call]), a.name) == Some(60.0)
    ensures FiredAt(a.name, [call]) == FiredAt(b.name, [call]) == []
    ensures StartedAt(a.name, [call]) == []
  {
    assert [call][..0] == [];
    var one := Due(call, 1, map[]);
    assert Due(call, 0, map[]) == Sweep(map[], [], [], false);
    assert one == Sweep(map[a.name := 60.0], [], [], false);
    assert Due(call, 2, map[]) == Sweep(map[a.name := 60.0, b.name := 60.0], [], [], false);
  }

  class Scheduler {
    var armed: ArmedMap

    constructor ()
      ensures armed == map[]
    {
      armed := map[];
    }

    /** One macro's share of a call. */
    method Consider(e: Entry, call: Call, before: seq<string>, ghost startedBefore: seq<string>)
      returns (names: seq<string>, raised: bool, ghost started: seq<string>)
      modifies this
      ensures Sweep(armed, started, names, raised)
              == DueStep(Sweep(old(armed), startedBefore, before, false), e, call)
    {
      names, raised, started := before, false, startedBefore;
      var delay := ComputeNextFire(e.spec, call.now);
      match delay {
        case Raises => raised := true;
        case Never =>
        case After(seconds) =>
          var target := Seconds(call.now) + seconds;
          if e.name !in armed {
            armed := armed[e.name := target];
          } else if Seconds(call.now) >= armed[e.name] {
            started := started + [e.name];
            if e.name in call.raises {
              assert armed[e.name := armed[e.name]] == armed;
              return names, true, started;
            }
            armed := armed[e.name := target];
            names := names + [e.name];
          }
      }
    }

    /** None when the call ended by an exception: of a trigger that could not be parsed, or of a run. */
    method RunDue(call: Call) returns (fired: Option<seq<string>>)
      modifies this
      ensures var sweep := DueAll(call, old(armed));
              armed == sweep.armed && fired == if sweep.raised then None else Some(sweep.fired)
    {
      var names := [];
      ghost var started := [];
      for i := 0 to |call.entries|
        invariant Due(call, i, old(armed)) == Sweep(armed, started, names, false)
      {
        var raised: bool;
        names, raised, started := Consider(call.entries[i], call, names, started);
        if raised {
          DueStaysRaised(call, i + 1, |call.entries|, old(armed));
          return None;
        }
      }
      return Some(names);
    }
  }

  lemma {:induction false} DueStaysRaised(call: Call, n: nat, m: nat, armed: ArmedMap)
    requires n <= m <= |call.entries| && Due(call, n, armed).raised
    ensures Due(call, m, armed) == Due(call, n, armed)
    decreases m
  {
    if n < m {
      DueStaysRaised(call, n, m - 1, armed);
    }
  }
}
