/** From the device's event ring through the poller and the event bus to the trigger manager.

    Events are added to the ring at any time; drains, notifications, other publishers and trigger
    steps follow in any order.  The companion service is not restarted. */
module Pipeline {
  import opened Common

  datatype RingEvent = RingEvent(num: nat, kind: string, pkg: string, ts: int)

  datatype Payload = Ui(event: RingEvent) | Notification(key: string) | OtherData

  datatype BusEvent = BusEvent(num: nat, payload: Payload)

  // ---------------------------------------------------------------- the ring

  function TakeLast<T>(xs: seq<T>, n: nat): seq<T> {
    if n >= |xs| then xs else xs[|xs| - n..]
  }

  function Take<T>(xs: seq<T>, n: nat): seq<T> {
    if n >= |xs| then xs else xs[..n]
  }

  function Newer(buffer: seq<RingEvent>, since: int): seq<RingEvent> {
    if buffer == [] then []
    else (if buffer[0].num > since then [buffer[0]] else []) + Newer(buffer[1..], since)
  }

  function Larger(a: int, b: int): int {
    if a < b then b else a
  }

  function Smaller(a: int, b: int): int {
    if a < b then a else b
  }

  function Selected(buffer: seq<RingEvent>, since: int, max: int): seq<RingEvent> {
    if since <= 0 then TakeLast(buffer, Larger(max, 0)) else Take(Newer(buffer, since), Larger(max, 0))
  }

  function CursorAfter(selected: seq<RingEvent>, since: int): int {
    if selected == [] then since else selected[|selected| - 1].num
  }

  /** The selected events and the new cursor. */
  function Query(buffer: seq<RingEvent>, since: int, max: int): (seq<RingEvent>, int) {
    (Selected(buffer, since, max), CursorAfter(Selected(buffer, since, max), since))
  }

  /** The ring holds the latest events of the device's log, which are numbered from 1. */
  ghost predicate RingInv(capacity: nat, buffer: seq<RingEvent>, log: seq<RingEvent>) {
    Numbered(log) && buffer == TakeLast(log, capacity)
  }

  lemma LastGrows<T>(xs: seq<T>, n: nat, x: T)
    ensures EndsWith(xs + [x], TakeLast(xs, n) + [x])
  {
  }

  lemma EndShrinks<T>(xs: seq<T>, end: seq<T>)
    requires EndsWith(xs, end) && end != []
    ensures EndsWith(xs, end[1..])
  {
  }

  lemma EndIsLast<T>(xs: seq<T>, end: seq<T>, n: nat)
    requires EndsWith(xs, end) && |end| <= n && (|end| == n || |end| == |xs|)
    ensures end == TakeLast(xs, n)
  {
  }

  predicate Numbered(log: seq<RingEvent>) {
    forall i | 0 <= i < |log| :: log[i].num == i + 1
  }

  class EventRing {
    const capacity: nat
    var buffer: seq<RingEvent>
    var nextNum: nat
    ghost var log: seq<RingEvent>

    ghost predicate Valid()
      reads this
    {
      RingInv(capacity, buffer, log) && nextNum == |log| + 1
    }

    constructor (capacity: nat)
      ensures Valid() && this.capacity == capacity && log == []
    {
      this.capacity := capacity;
      buffer, nextNum, log := [], 1, [];
    }

    method Add(kind: string, pkg: string, ts: int) returns (num: nat)
      requires Valid()
      modifies this
      ensures Valid() && num == |log|
      ensures log == old(log) + [RingEvent(num, kind, pkg, ts)]
    {
      num := nextNum;
      nextNum := num + 1;
      var event := RingEvent(num, kind, pkg, ts);
      LastGrows(log, capacity, event);
      buffer := buffer + [event];
      log := log + [event];
      ghost var all := log;
      while |buffer| > capacity
        invariant EndsWith(all, buffer)
        invariant capacity <= |buffer| || |buffer| == |all|
        invariant log == all && nextNum == num + 1
        decreases |buffer|
      {
        EndShrinks(all, buffer);
        buffer := buffer[1..];
      }
      EndIsLast(all, buffer, capacity);
    }

    method QueryRing(since: int, max: int) returns (selected: seq<RingEvent>, cursor: int)
      ensures (selected, cursor) == Query(buffer, since, max)
    {
      var cap := if max < 0 then 0 else max;
      if since <= 0 {
        selected := TakeLast(buffer, cap);
      } else {
        selected := Take(Newer(buffer, since), cap);
      }
      cursor := if selected == [] then since else selected[|selected| - 1].num;
    }
  }

  lemma {:induction false} NewerIsSuffix(buffer: seq<RingEvent>, first: nat, since: nat)
    requires forall i | 0 <= i < |buffer| :: buffer[i].num == first + i
    ensures Newer(buffer, since) == if since < first then buffer
                                    else if since - first + 1 >= |buffer| then [] else buffer[since - first + 1..]
  {
    if buffer != [] {
      NewerIsSuffix(buffer[1..], first + 1, since);
      assert buffer == [buffer[0]] + buffer[1..];
      if first <= since < first + |buffer| - 1 {
        assert buffer[1..][since - first..] == buffer[since - first + 1..];
      }
    }
  }

  /** Where in a log of `n` events a query's selection begins and ends. */
  function SelectedFrom(capacity: nat, n: nat, since: int, max: int): int {
    var lost := Larger(0, n - capacity);
    if since <= 0 then Larger(lost, n - Larger(max, 0)) else Larger(lost, since)
  }

  function SelectedTo(capacity: nat, n: nat, since: int, max: int): int {
    if since <= 0 then n else Smaller(n, SelectedFrom(capacity, n, since, max) + Larger(max, 0))
  }

  lemma TakeOfSuffix<T>(xs: seq<T>, from: nat, k: nat)
    requires from <= |xs|
    ensures Take(xs[from..], k) == xs[from..Smaller(|xs|, from + k)]
  {
  }

  lemma TakeLastOfSuffix<T>(xs: seq<T>, from: nat, k: nat)
    requires from <= |xs|
    ensures TakeLast(xs[from..], k) == xs[Larger(from, |xs| - k)..]
  {
  }

  lemma NewerSelects(log: seq<RingEvent>, lost: nat, since: nat)
    requires forall i | 0 <= i < |log| :: log[i].num == i + 1
    requires lost <= |log| && since <= |log|
    ensures Newer(log[lost..], since) == log[Larger(lost, since)..]
  {
    NewerIsSuffix(log[lost..], lost + 1, since);
  }

  lemma CursorOf(log: seq<RingEvent>, from: nat, to: nat, since: int)
    requires forall i | 0 <= i < |log| :: log[i].num == i + 1
    requires from <= to <= |log|
    ensures CursorAfter(log[from..to], since) == if from == to then since else to
  {
  }

  lemma LatestSelects(log: seq<RingEvent>, lost: nat, max: int)
    requires lost <= |log|
    ensures TakeLast(log[lost..], Larger(max, 0)) == log[Larger(lost, |log| - Larger(max, 0))..|log|]
  {
    TakeLastOfSuffix(log, lost, Larger(max, 0));
  }

  lemma BufferIsSuffix(capacity: nat, buffer: seq<RingEvent>, log: seq<RingEvent>)
    requires buffer == TakeLast(log, capacity)
    ensures buffer == log[Larger(0, |log| - capacity)..]
  {
    assert log[0..] == log;
  }

  lemma SelectionIsStretch(capacity: nat, n: nat, since: int, max: int)
    requires since <= n
    ensures 0 <= SelectedFrom(capacity, n, since, max) <= SelectedTo(capacity, n, since, max) <= n
    ensures since > 0 ==> since <= SelectedFrom(capacity, n, since, max)
  {
  }

  lemma SelectsStretch(capacity: nat, log: seq<RingEvent>, since: int, max: int)
    requires Numbered(log) && since <= |log|
    ensures var from, to := SelectedFrom(capacity, |log|, since, max), SelectedTo(capacity, |log|, since, max);
            0 <= from <= to <= |log| && Selected(log[Larger(0, |log| - capacity)..], since, max) == log[from..to]
  {
    var lost := Larger(0, |log| - capacity);
    SelectionIsStretch(capacity, |log|, since, max);
    if since <= 0 {
      LatestSelects(log, lost, max);
    } else {
      NewerSelects(log, lost, since);
      TakeOfSuffix(log, Larger(lost, since), Larger(max, 0));
    }
  }

  /** What a query selects, in terms of the device's log. */
  lemma QuerySelects(capacity: nat, buffer: seq<RingEvent>, log: seq<RingEvent>, since: int, max: int)
    requires RingInv(capacity, buffer, log) && since <= |log|
    ensures var from, to := SelectedFrom(capacity, |log|, since, max), SelectedTo(capacity, |log|, since, max);
            && 0 <= from <= to <= |log| && (since > 0 ==> since <= from)
            && Query(buffer, since, max) == (log[from..to], if from == to then since else to)
  {
    var from, to := SelectedFrom(capacity, |log|, since, max), SelectedTo(capacity, |log|, since, max);
    BufferIsSuffix(capacity, buffer, log);
    SelectionIsStretch(capacity, |log|, since, max);
    SelectsStretch(capacity, log, since, max);
    CursorOf(log, from, to, since);
  }

  // ---------------------------------------------------------------- the bus

  function BusPoll(events: seq<BusEvent>, since: nat, max: nat): (seq<BusEvent>, nat) {
    var newer := Take(BusNewer(events, since), max);
    (newer, if newer == [] then since else newer[|newer| - 1].num)
  }

  function BusNewer(events: seq<BusEvent>, since: nat): seq<BusEvent> {
    if events == [] then []
    else (if events[0].num > since then [events[0]] else []) + BusNewer(events[1..], since)
  }

  ghost predicate BusInv(events: seq<BusEvent>) {
    forall i | 0 <= i < |events| :: events[i].num == i + 1
  }

  function Publish(events: seq<BusEvent>, payload: Payload): seq<BusEvent> {
    events + [BusEvent(|events| + 1, payload)]
  }

  class EventBus {
    var events: seq<BusEvent>
    var nextNum: nat

    ghost predicate Valid()
      reads this
    {
      BusInv(events) && nextNum == |events| + 1
    }

    constructor ()
      ensures Valid() && events == []
    {
      events, nextNum := [], 1;
    }

    method PublishEvent(payload: Payload) returns (event: BusEvent)
      requires Valid()
      modifies this
      ensures Valid() && events == Publish(old(events), payload) && event == events[|events| - 1]
    {
      event := BusEvent(nextNum, payload);
      nextNum := nextNum + 1;
      events := events + [event];
    }

    method Poll(since: nat, max: nat) returns (newer: seq<BusEvent>, cursor: nat)
      ensures (newer, cursor) == BusPoll(events, since, max)
    {
      newer := Take(BusNewer(events, since), max);
      cursor := if newer == [] then since else newer[|newer| - 1].num;
    }
  }

  lemma {:induction false} BusNewerIsSuffix(events: seq<BusEvent>, first: nat, since: nat)
    requires forall i | 0 <= i < |events| :: events[i].num == first + i
    ensures BusNewer(events, since) == if since < first then events
                                       else if since - first + 1 >= |events| then [] else events[since - first + 1..]
  {
    if events != [] {
      BusNewerIsSuffix(events[1..], first + 1, since);
      assert events == [events[0]] + events[1..];
      if first <= since < first + |events| - 1 {
        assert events[1..][since - first..] == events[since - first + 1..];
      }
    }
  }

  lemma LastNumber(events: seq<BusEvent>, from: nat, to: nat)
    requires BusInv(events) && from < to <= |events|
    ensures events[from..to][to - from - 1].num == to
  {
  }

  lemma PollSlices(events: seq<BusEvent>, since: nat, max: nat)
    requires BusInv(events) && since <= |events|
    ensures var (newer, cursor) := BusPoll(events, since, max);
            && since <= cursor <= |events| && newer == events[since..cursor]
            && cursor == if since + max < |events| then since + max else |events|
  {
    BusNewerIsSuffix(events, 1, since);
    TakeOfSuffix(events, since, max);
    if since < Smaller(|events|, since + max) {
      LastNumber(events, since, Smaller(|events|, since + max));
    }
  }

  // ---------------------------------------------------------------- the whole pipeline

  /** `passed` lists the events the UI cursor has passed, each with the packages that were guarded at
      the drain that passed it; `start` is where the first drain with events began in the log;
      `overrun` tells that some drain came when the lag exceeded the ring, `raised` that some trigger
      step was cut short by an exception. */
  datatype Passed = Passed(event: RingEvent, guarded: set<string>)

  datatype State = State(
    buffer: seq<RingEvent>, log: seq<RingEvent>,
    uiCursor: int, seen: set<string>, bus: seq<BusEvent>,
    cursor: nat, considered: seq<BusEvent>,
    passed: seq<Passed>, start: nat, overrun: bool, raised: bool)

  const EMPTY := State([], [], 0, {}, [], 0, [], [], 0, false, false)

  datatype Op =
    | AddEvent(kind: string, pkg: string, ts: int)
    | Drain(max: int, guarded: set<string>, notes: seq<string>)
    | PublishOther
    | TriggerStep(limit: nat, raisesAt: Option<nat>)   // Some(k): handling the k-th event of the batch raises

  function Unguarded(events: seq<RingEvent>, guarded: set<string>): seq<RingEvent> {
    if events == [] then []
    else Unguarded(events[..|events| - 1], guarded)
         + if events[|events| - 1].pkg !in guarded then [events[|events| - 1]] else []
  }

  function Marked(events: seq<RingEvent>, guarded: set<string>): seq<Passed> {
    seq(|events|, i requires 0 <= i < |events| => Passed(events[i], guarded))
  }

  function PublishUi(bus: seq<BusEvent>, events: seq<RingEvent>): seq<BusEvent> {
    if events == [] then bus else Publish(PublishUi(bus, events[..|events| - 1]), Ui(events[|events| - 1]))
  }

  /** Notifications are published once per key. */
  function PublishNotes(bus: seq<BusEvent>, seen: set<string>, notes: seq<string>): (seq<BusEvent>, set<string>) {
    if notes == [] then (bus, seen)
    else
      var (bus', seen') := PublishNotes(bus, seen, notes[..|notes| - 1]);
      var key := notes[|notes| - 1];
      if key in seen' then (bus', seen') else (Publish(bus', Notification(key)), seen' + {key})
  }

  lemma PublishNextUi(bus: seq<BusEvent>, events: seq<RingEvent>, i: nat)
    requires i < |events|
    ensures PublishUi(bus, events[..i + 1]) == Publish(PublishUi(bus, events[..i]), Ui(events[i]))
  {
    assert events[..i + 1][..i] == events[..i];
  }

  lemma PublishNextNote(bus: seq<BusEvent>, seen: set<string>, notes: seq<string>, i: nat)
    requires i < |notes|
    ensures var (bus', seen') := PublishNotes(bus, seen, notes[..i]);
            PublishNotes(bus, seen, notes[..i + 1])
            == if notes[i] in seen' then (bus', seen')
               else (Publish(bus', Notification(notes[i])), seen' + {notes[i]})
  {
    assert notes[..i + 1][..i] == notes[..i];
  }

  function Next(capacity: nat, s: State, op: Op): State {
    match op
    case AddEvent(kind, pkg, ts) =>
      var log := s.log + [RingEvent(|s.log| + 1, kind, pkg, ts)];
      s.(log := log, buffer := TakeLast(log, capacity))
    case Drain(max, guarded, notes) =>
      var (selected, cursor) := Query(s.buffer, s.uiCursor, max);
      var (bus, seen) := PublishNotes(PublishUi(s.bus, Unguarded(selected, guarded)), s.seen, notes);
      s.(bus := bus, seen := seen, uiCursor := cursor,
         passed := s.passed + Marked(selected, guarded),
         start := if s.uiCursor <= 0 && selected != [] && selected[0].num > 0 then selected[0].num - 1 else s.start,
         overrun := s.overrun || (s.uiCursor > 0 && |s.log| - s.uiCursor > capacity))
    case PublishOther => s.(bus := Publish(s.bus, OtherData))
    case TriggerStep(limit, raisesAt) =>
      var (batch, cursor) := BusPoll(s.bus, s.cursor, limit);
      var handled := if raisesAt.None? then batch else Take(batch, raisesAt.value);
      s.(cursor := cursor, considered := s.considered + handled, raised := s.raised || handled != batch)
  }

  // ---------------------------------------------------------------- what every step keeps

  /** The UI events on the bus, in bus order. */
  function UiOf(bus: seq<BusEvent>): seq<RingEvent> {
    if bus == [] then []
    else UiOf(bus[..|bus| - 1])
         + if bus[|bus| - 1].payload.Ui? then [bus[|bus| - 1].payload.event] else []
  }

  /** The events passed at a drain that did not guard their package. */
  function Delivered(passed: seq<Passed>): seq<RingEvent> {
    if passed == [] then []
    else
      var last := passed[|passed| - 1];
      Delivered(passed[..|passed| - 1]) + if last.event.pkg !in last.guarded then [last.event] else []
  }

  function EventsOf(passed: seq<Passed>): seq<RingEvent> {
    seq(|passed|, i requires 0 <= i < |passed| => passed[i].event)
  }

  /** In the order of the log, without repetition. */
  ghost predicate InLogOrder(events: seq<RingEvent>, log: seq<RingEvent>) {
    && (forall i | 0 <= i < |events| :: 1 <= events[i].num <= |log| && events[i] == log[events[i].num - 1])
    && (forall i, j | 0 <= i < j < |events| :: events[i].num < events[j].num)
  }

  /** The cursor is at the last event passed; without an overrun all of a stretch of the log is. */
  ghost predicate PassedInv(events: seq<RingEvent>, log: seq<RingEvent>, cursor: int, start: nat, overrun: bool) {
    && 0 <= cursor <= |log|
    && InLogOrder(events, log)
    && (cursor == 0 ==> events == [])
    && (cursor > 0 ==> events != [] && events[|events| - 1].num == cursor)
    && (!overrun && cursor > 0 ==> start <= cursor && events == log[start..cursor])
  }

  ghost predicate UiInv(s: State) {
    && PassedInv(EventsOf(s.passed), s.log, s.uiCursor, s.start, s.overrun)
    && UiOf(s.bus) == Delivered(s.passed)
  }

  /** Bus events up to `upTo`, in bus order, without repetition. */
  ghost predicate ConsideredInOrder(considered: seq<BusEvent>, bus: seq<BusEvent>, upTo: nat) {
    && (forall i | 0 <= i < |considered| ::
          1 <= considered[i].num <= upTo <= |bus| && considered[i] == bus[considered[i].num - 1])
    && (forall i, j | 0 <= i < j < |considered| :: considered[i].num < considered[j].num)
  }

  ghost predicate TriggerInv(s: State) {
    && s.cursor <= |s.bus|
    && ConsideredInOrder(s.considered, s.bus, s.cursor)
    && (!s.raised ==> s.considered == s.bus[..s.cursor])
  }

  ghost predicate Inv(capacity: nat, s: State) {
    RingInv(capacity, s.buffer, s.log) && BusInv(s.bus) && UiInv(s) && TriggerInv(s)
  }

  lemma UiOfPublish(bus: seq<BusEvent>, payload: Payload)
    ensures UiOf(Publish(bus, payload)) == UiOf(bus) + if payload.Ui? then [payload.event] else []
    ensures BusInv(bus) ==> BusInv(Publish(bus, payload))
    ensures bus <= Publish(bus, payload)
  {
    assert Publish(bus, payload)[..|bus|] == bus;
  }

  lemma {:induction false} UiOfPublishUi(bus: seq<BusEvent>, events: seq<RingEvent>)
    requires BusInv(bus)
    ensures var bus' := PublishUi(bus, events); UiOf(bus') == UiOf(bus) + events && BusInv(bus') && bus <= bus'
  {
    if events == [] {
      assert UiOf(bus) + events == UiOf(bus);
    } else {
      var front := events[..|events| - 1];
      UiOfPublishUi(bus, front);
      UiOfPublish(PublishUi(bus, front), Ui(events[|events| - 1]));
      assert events == front + [events[|events| - 1]];
      assert UiOf(bus) + front + [events[|events| - 1]] == UiOf(bus) + events;
    }
  }

  lemma {:induction false} UiOfPublishNotes(bus: seq<BusEvent>, seen: set<string>, notes: seq<string>)
    requires BusInv(bus)
    ensures var bus' := PublishNotes(bus, seen, notes).0; UiOf(bus') == UiOf(bus) && BusInv(bus') && bus <= bus'
  {
    if notes != [] {
      var front := notes[..|notes| - 1];
      UiOfPublishNotes(bus, seen, front);
      UiOfPublish(PublishNotes(bus, seen, front).0, Notification(notes[|notes| - 1]));
    }
  }

  lemma {:induction false} DeliveredMarked(passed: seq<Passed>, events: seq<RingEvent>, guarded: set<string>)
    ensures Delivered(passed + Marked(events, guarded)) == Delivered(passed) + Unguarded(events, guarded)
    decreases |events|
  {
    var longer := passed + Marked(events, guarded);
    if events == [] {
      assert longer == passed;
      assert Delivered(passed) + [] == Delivered(passed);
    } else {
      var front, last := events[..|events| - 1], events[|events| - 1];
      var shorter := passed + Marked(front, guarded);
      DeliveredMarked(passed, front, guarded);
      assert longer == shorter + [Marked(events, guarded)[|front|]];
      assert longer[..|shorter|] == shorter;
    }
  }

  /** A longer bus changes nothing for the trigger manager. */
  lemma TriggerInvGrows(s: State, s': State)
    requires TriggerInv(s) && s.bus <= s'.bus
    requires s'.cursor == s.cursor && s'.considered == s.considered && s'.raised == s.raised
    ensures TriggerInv(s')
  {
  }

  /** Passing a stretch of the log that begins no earlier than the last event passed. */
  lemma OrderExtends(events: seq<RingEvent>, log: seq<RingEvent>, cursor: nat, from: nat, to: nat)
    requires forall i | 0 <= i < |log| :: log[i].num == i + 1
    requires InLogOrder(events, log) && (events != [] ==> events[|events| - 1].num <= cursor)
    requires cursor <= from <= to <= |log|
    ensures InLogOrder(events + log[from..to], log)
  {
    var longer := events + log[from..to];
    var n := |events|;
    forall i | 0 <= i < |longer|
      ensures 1 <= longer[i].num <= |log| && longer[i] == log[longer[i].num - 1]
      ensures if i < n then longer[i].num <= cursor else longer[i].num == from + (i - n) + 1
    {
      if i < n {
        assert i < n - 1 ==> events[i].num < events[n - 1].num;
      } else {
        assert longer[i] == log[from + (i - n)];
      }
    }
  }

  lemma DrainPublishes(s: State, selected: seq<RingEvent>, guarded: set<string>, notes: seq<string>)
    requires BusInv(s.bus) && UiOf(s.bus) == Delivered(s.passed)
    ensures var delivered := Unguarded(selected, guarded);
            var bus := PublishNotes(PublishUi(s.bus, delivered), s.seen, notes).0;
            var passed := s.passed + Marked(selected, guarded);
            && BusInv(bus) && s.bus <= bus && UiOf(bus) == UiOf(s.bus) + delivered == Delivered(passed)
            && EventsOf(passed) == EventsOf(s.passed) + selected
  {
    UiOfPublishUi(s.bus, Unguarded(selected, guarded));
    UiOfPublishNotes(PublishUi(s.bus, Unguarded(selected, guarded)), s.seen, notes);
    DeliveredMarked(s.passed, selected, guarded);
    EventsOfMarked(s.passed, selected, guarded);
  }

  lemma EventsOfMarked(passed: seq<Passed>, selected: seq<RingEvent>, guarded: set<string>)
    ensures EventsOf(passed + Marked(selected, guarded)) == EventsOf(passed) + selected
  {
    var longer := passed + Marked(selected, guarded);
    forall i | 0 <= i < |longer|
      ensures longer[i].event == (EventsOf(passed) + selected)[i]
    {
      if i >= |passed| {
        assert longer[i] == Marked(selected, guarded)[i - |passed|];
      }
    }
  }

  /** A drain, told by where its selection begins and ends in the log. */
  lemma DrainMoves(capacity: nat, s: State, op: Op)
    requires op.Drain? && Inv(capacity, s)
    ensures var s' := Next(capacity, s, op);
            var from := SelectedFrom(capacity, |s.log|, s.uiCursor, op.max);
            var to := SelectedTo(capacity, |s.log|, s.uiCursor, op.max);
            && s.uiCursor <= from <= to <= |s.log|
            && s'.uiCursor == (if from == to then s.uiCursor else to)
            && s'.start == (if s.uiCursor == 0 && from < to then from else s.start)
            && EventsOf(s'.passed) == EventsOf(s.passed) + s.log[from..to]
            && UiOf(s'.bus) == UiOf(s.bus) + Unguarded(s.log[from..to], op.guarded) == Delivered(s'.passed)
            && BusInv(s'.bus) && s.bus <= s'.bus
  {
    QuerySelects(capacity, s.buffer, s.log, s.uiCursor, op.max);
    DrainPublishes(s, Query(s.buffer, s.uiCursor, op.max).0, op.guarded, op.notes);
  }

  /** Without an overrun what has been passed stays one stretch of the log. */
  lemma StretchExtends(events: seq<RingEvent>, log: seq<RingEvent>, start: nat, cursor: nat, from: nat, to: nat)
    requires cursor <= from <= to <= |log|
    requires cursor == 0 ==> events == []
    requires cursor > 0 ==> start <= cursor == from && events == log[start..cursor]
    ensures events + log[from..to] == log[if cursor == 0 then from else start..to]
  {
  }

  lemma PassedExtends(events: seq<RingEvent>, log: seq<RingEvent>, cursor: nat, start: nat, overrun: bool,
                      from: nat, to: nat, overrun': bool)
    requires PassedInv(events, log, cursor, start, overrun) && forall i | 0 <= i < |log| :: log[i].num == i + 1
    requires cursor <= from < to <= |log|
    requires !overrun' ==> !overrun && (cursor > 0 ==> from == cursor)
    ensures PassedInv(events + log[from..to], log, to, if cursor == 0 then from else start, overrun')
  {
    var added := log[from..to];
    OrderExtends(events, log, cursor, from, to);
    assert (events + added)[|events + added| - 1] == added[|added| - 1] == log[to - 1];
    if !overrun' {
      StretchExtends(events, log, start, cursor, from, to);
    }
  }

  lemma DrainKeepsUi(capacity: nat, s: State, op: Op)
    requires op.Drain? && Inv(capacity, s)
    ensures UiInv(Next(capacity, s, op)) && BusInv(Next(capacity, s, op).bus) && s.bus <= Next(capacity, s, op).bus
  {
    var from := SelectedFrom(capacity, |s.log|, s.uiCursor, op.max);
    var to := SelectedTo(capacity, |s.log|, s.uiCursor, op.max);
    DrainMoves(capacity, s, op);
    var events, s' := EventsOf(s.passed), Next(capacity, s, op);
    hide EventsOf;
    hide UiOf;
    hide Delivered;
    hide Unguarded;
    hide InLogOrder;
    if from == to {
      assert events + s.log[from..to] == events;
    } else {
      PassedExtends(events, s.log, s.uiCursor, s.start, s.overrun, from, to, s'.overrun);
    }
  }

  lemma ConsideredExtends(considered: seq<BusEvent>, bus: seq<BusEvent>, from: nat, to: nat, handled: seq<BusEvent>)
    requires BusInv(bus) && from <= to <= |bus| && handled <= bus[from..to]
    requires ConsideredInOrder(considered, bus, from)
    ensures ConsideredInOrder(considered + handled, bus, to)
  {
    var longer := considered + handled;
    forall i | |considered| <= i < |longer|
      ensures longer[i] == bus[from + (i - |considered|)] && longer[i].num == from + (i - |considered|) + 1
    {
      assert handled[i - |considered|] == bus[from..to][i - |considered|];
    }
  }

  /** What is read of a stretch, all of it or a first part. */
  lemma ReadExtends(bus: seq<BusEvent>, from: nat, to: nat)
    requires from <= to <= |bus|
    ensures bus[..from] + bus[from..to] == bus[..to]
  {
  }

  lemma TriggerStepKeeps(s: State, op: Op, capacity: nat)
    requires op.TriggerStep? && BusInv(s.bus) && TriggerInv(s)
    ensures TriggerInv(Next(capacity, s, op))
  {
    var (batch, cursor) := BusPoll(s.bus, s.cursor, op.limit);
    PollSlices(s.bus, s.cursor, op.limit);
    var handled := if op.raisesAt.None? then batch else Take(batch, op.raisesAt.value);
    ConsideredExtends(s.considered, s.bus, s.cursor, cursor, handled);
    ReadExtends(s.bus, s.cursor, cursor);
  }

  /** Events added to the log change nothing for what has been passed. */
  lemma PassedInvGrows(events: seq<RingEvent>, log: seq<RingEvent>, cursor: int, start: nat, overrun: bool,
                       e: RingEvent)
    requires PassedInv(events, log, cursor, start, overrun)
    ensures PassedInv(events, log + [e], cursor, start, overrun)
  {
    var log' := log + [e];
    assert forall i | 0 <= i < |events| :: log'[events[i].num - 1] == log[events[i].num - 1];
    if !overrun && cursor > 0 {
      assert log'[start..cursor] == log[start..cursor];
    }
  }

  lemma AddKeeps(capacity: nat, s: State, op: Op)
    requires op.AddEvent? && Inv(capacity, s)
    ensures Inv(capacity, Next(capacity, s, op))
  {
    var e := RingEvent(|s.log| + 1, op.kind, op.pkg, op.ts);
    PassedInvGrows(EventsOf(s.passed), s.log, s.uiCursor, s.start, s.overrun, e);
    RingInvGrows(capacity, s.buffer, s.log, e);
  }

  lemma RingInvGrows(capacity: nat, buffer: seq<RingEvent>, log: seq<RingEvent>, e: RingEvent)
    requires RingInv(capacity, buffer, log) && e.num == |log| + 1
    ensures RingInv(capacity, TakeLast(log + [e], capacity), log + [e])
  {
  }

  lemma StepKeeps(capacity: nat, s: State, op: Op)
    requires Inv(capacity, s)
    ensures Inv(capacity, Next(capacity, s, op))
  {
    match op {
      case AddEvent(_, _, _) => AddKeeps(capacity, s, op);
      case Drain(_, _, _) =>
        DrainKeepsUi(capacity, s, op);
        TriggerInvGrows(s, Next(capacity, s, op));
      case PublishOther =>
        UiOfPublish(s.bus, OtherData);
        TriggerInvGrows(s, Next(capacity, s, op));
      case TriggerStep(_, _) => TriggerStepKeeps(s, op, capacity);
    }
  }

  function Run(capacity: nat, s: State, ops: seq<Op>): State
    decreases |ops|
  {
    if ops == [] then s else Run(capacity, Next(capacity, s, ops[0]), ops[1..])
  }

  lemma {:induction false} RunKeeps(capacity: nat, s: State, ops: seq<Op>)
    requires Inv(capacity, s)
    ensures Inv(capacity, Run(capacity, s, ops))
    decreases |ops|
  {
    if ops != [] {
      StepKeeps(capacity, s, ops[0]);
      RunKeeps(capacity, Next(capacity, s, ops[0]), ops[1..]);
    }
  }

  predicate Below(events: seq<RingEvent>, num: nat) {
    forall i | 0 <= i < |events| :: events[i].num < num
  }

  lemma {:induction false} DeliveredBelow(passed: seq<Passed>, num: nat)
    requires Below(EventsOf(passed), num)
    ensures Below(Delivered(passed), num)
  {
    if passed != [] {
      var n := |passed| - 1;
      assert EventsOf(passed) == EventsOf(passed[..n]) + [passed[n].event];
      assert forall i | 0 <= i < n :: EventsOf(passed)[i] == EventsOf(passed[..n])[i];
      assert EventsOf(passed)[n].num < num;
      DeliveredBelow(passed[..n], num);
    }
  }

  lemma OrderSnoc(events: seq<RingEvent>, e: RingEvent, log: seq<RingEvent>)
    requires InLogOrder(events, log) && Below(events, e.num) && 1 <= e.num <= |log| && e == log[e.num - 1]
    ensures InLogOrder(events + [e], log)
  {
  }

  lemma OrderFront(events: seq<RingEvent>, e: RingEvent, log: seq<RingEvent>)
    requires InLogOrder(events + [e], log)
    ensures InLogOrder(events, log) && Below(events, e.num) && 1 <= e.num <= |log| && e == log[e.num - 1]
  {
    var all, n := events + [e], |events|;
    assert all[n] == e && forall i | 0 <= i < n :: all[i] == events[i];
  }

  /** What is delivered comes in the order of what is passed. */
  lemma {:induction false} DeliveredInOrder(passed: seq<Passed>, log: seq<RingEvent>)
    requires InLogOrder(EventsOf(passed), log)
    ensures InLogOrder(Delivered(passed), log)
  {
    if passed != [] {
      var front, last := passed[..|passed| - 1], passed[|passed| - 1];
      assert EventsOf(passed) == EventsOf(front) + [last.event];
      OrderFront(EventsOf(front), last.event, log);
      hide InLogOrder;
      hide Below;
      hide EventsOf;
      DeliveredInOrder(front, log);
      DeliveredBelow(front, last.event.num);
      OrderSnoc(Delivered(front), last.event, log);
      assert Delivered(front) + [] == Delivered(front);
    }
  }

  predicate AllUnder(passed: seq<Passed>, guarded: set<string>) {
    forall i | 0 <= i < |passed| :: passed[i].guarded == guarded
  }

  lemma {:induction false} DeliveredUnderOneGuard(passed: seq<Passed>, guarded: set<string>)
    requires AllUnder(passed, guarded)
    ensures Delivered(passed) == Unguarded(EventsOf(passed), guarded)
  {
    if passed != [] {
      var front := passed[..|passed| - 1];
      DeliveredUnderOneGuard(front, guarded);
      assert EventsOf(passed)[..|front|] == EventsOf(front);
    }
  }

  /** Every drain of the run guards the same packages. */
  predicate GuardsAlways(ops: seq<Op>, guarded: set<string>) {
    forall i | 0 <= i < |ops| :: ops[i].Drain? ==> ops[i].guarded == guarded
  }

  lemma {:induction false} PassedUnderOneGuard(capacity: nat, s: State, ops: seq<Op>, guarded: set<string>)
    requires GuardsAlways(ops, guarded) && AllUnder(s.passed, guarded)
    ensures AllUnder(Run(capacity, s, ops).passed, guarded)
    decreases |ops|
  {
    if ops != [] {
      assert ops[0].Drain? ==> ops[0].guarded == guarded;
      assert AllUnder(Next(capacity, s, ops[0]).passed, guarded);
      PassedUnderOneGuard(capacity, Next(capacity, s, ops[0]), ops[1..], guarded);
    }
  }

  /** Whatever happens, the UI events on the bus are exactly those that were not guarded when the
      cursor passed them, each at most once and in the order of the device's log; if no drain found
      the lag above the ring's capacity, the cursor has passed every event since its start exactly
      once. */
  lemma UiEventsInOrder(capacity: nat, ops: seq<Op>)
    ensures var s := Run(capacity, EMPTY, ops);
            && UiOf(s.bus) == Delivered(s.passed)
            && InLogOrder(UiOf(s.bus), s.log) && InLogOrder(EventsOf(s.passed), s.log)
            && (!s.overrun && s.uiCursor > 0 ==>
                  s.start <= s.uiCursor <= |s.log| && EventsOf(s.passed) == s.log[s.start..s.uiCursor])
  {
    RunKeeps(capacity, EMPTY, ops);
    var s := Run(capacity, EMPTY, ops);
    DeliveredInOrder(s.passed, s.log);
  }

  /** With one set of guarded packages: the bus has exactly the unguarded events among those passed,
      and without an overrun exactly the unguarded events of the log from the start to the cursor. */
  lemma UiEventsExactlyOnce(capacity: nat, ops: seq<Op>, guarded: set<string>)
    requires GuardsAlways(ops, guarded)
    ensures var s := Run(capacity, EMPTY, ops);
            && UiOf(s.bus) == Unguarded(EventsOf(s.passed), guarded)
            && InLogOrder(UiOf(s.bus), s.log)
            && (!s.overrun && s.uiCursor > 0 ==>
                  s.start <= s.uiCursor <= |s.log|
                  && UiOf(s.bus) == Unguarded(s.log[s.start..s.uiCursor], guarded))
  {
    UiEventsInOrder(capacity, ops);
    PassedUnderOneGuard(capacity, EMPTY, ops, guarded);
    DeliveredUnderOneGuard(Run(capacity, EMPTY, ops).passed, guarded);
  }

  lemma WithinCapacity(capacity: nat, n: nat, since: int, max: int)
    requires 0 < since <= n && n - since <= capacity
    ensures SelectedFrom(capacity, n, since, max) == since
    ensures SelectedTo(capacity, n, since, max) == Smaller(n, since + Larger(max, 0))
  {
  }

  /** From `s` to `s'` the cursor moves on by as many events as `op` may take, and exactly those of
      unguarded packages are published. */
  ghost predicate CatchesUp(s: State, op: Op, s': State)
    requires op.Drain?
  {
    var to := Smaller(|s.log|, s.uiCursor + Larger(op.max, 0));
    && 0 <= s.uiCursor <= to <= |s.log| && s'.uiCursor == to
    && UiOf(s'.bus) == UiOf(s.bus) + Unguarded(s.log[s.uiCursor..to], op.guarded)
  }

  /** The lag is within the ring's capacity. */
  predicate KeepsUp(capacity: nat, s: State) {
    s.uiCursor > 0 && |s.log| - s.uiCursor <= capacity
  }

  lemma DrainWithinCapacity(capacity: nat, s: State, op: Op)
    requires op.Drain? && Inv(capacity, s) && KeepsUp(capacity, s)
    ensures CatchesUp(s, op, Next(capacity, s, op))
  {
    DrainMoves(capacity, s, op);
    WithinCapacity(capacity, |s.log|, s.uiCursor, op.max);
    hide Next;
    hide Inv;
    hide SelectedFrom;
    hide SelectedTo;
    hide Unguarded;
    hide UiOf;
    hide BusInv;
    hide EventsOf;
    hide Delivered;
  }

  /** After any run, a drain that comes before the lag exceeds the ring catches up. */
  lemma DrainCatchesUp(capacity: nat, ops: seq<Op>, op: Op)
    requires op.Drain? && KeepsUp(capacity, Run(capacity, EMPTY, ops))
    ensures CatchesUp(Run(capacity, EMPTY, ops), op, Next(capacity, Run(capacity, EMPTY, ops), op))
  {
    RunKeeps(capacity, EMPTY, ops);
    DrainWithinCapacity(capacity, Run(capacity, EMPTY, ops), op);
  }

  /** Bus events are numbered 1 to n; the trigger manager considers each at most once and in order,
      and has considered exactly those up to its cursor if no step was cut short. */
  lemma TriggersConsiderOnce(capacity: nat, ops: seq<Op>)
    ensures var s := Run(capacity, EMPTY, ops);
            && BusInv(s.bus) && s.cursor <= |s.bus|
            && ConsideredInOrder(s.considered, s.bus, s.cursor)
            && (!s.raised ==> s.considered == s.bus[..s.cursor])
  {
    RunKeeps(capacity, EMPTY, ops);
  }

  /** `k` trigger steps that nothing cuts short. */
  function TriggerSteps(limit: nat, k: nat): seq<Op> {
    if k == 0 then [] else [TriggerStep(limit, None)] + TriggerSteps(limit, k - 1)
  }

  lemma PollReads(capacity: nat, s: State, limit: nat)
    requires BusInv(s.bus) && s.cursor <= |s.bus| && limit > 0 && s.considered == s.bus[..s.cursor]
    ensures var s' := Next(capacity, s, TriggerStep(limit, None));
            && s'.bus == s.bus && s'.cursor <= |s.bus| && s'.considered == s.bus[..s'.cursor]
            && (s.cursor < |s.bus| ==> s.cursor < s'.cursor)
  {
    PollSlices(s.bus, s.cursor, limit);
    ReadExtends(s.bus, s.cursor, BusPoll(s.bus, s.cursor, limit).1);
  }

  lemma {:induction false} PollingCatchesUp(capacity: nat, s: State, limit: nat, k: nat)
    requires BusInv(s.bus) && s.cursor <= |s.bus| && limit > 0
    requires s.considered == s.bus[..s.cursor] && |s.bus| - s.cursor <= k
    ensures var s' := Run(capacity, s, TriggerSteps(limit, k));
            s'.bus == s.bus && s'.cursor == |s.bus| && s'.considered == s.bus
    decreases k
  {
    if k == 0 {
      assert s.bus[..|s.bus|] == s.bus;
    } else {
      PollReads(capacity, s, limit);
      assert TriggerSteps(limit, k)[1..] == TriggerSteps(limit, k - 1);
      PollingCatchesUp(capacity, Next(capacity, s, TriggerStep(limit, None)), limit, k - 1);
    }
  }

  /** After any run in which no step was cut short, as many steps as there are unread events (and
      any more) read the bus to its end: then every event has been considered exactly once. */
  lemma PolledToTheEnd(capacity: nat, ops: seq<Op>, limit: nat, k: nat)
    requires !Run(capacity, EMPTY, ops).raised && limit > 0
    requires |Run(capacity, EMPTY, ops).bus| - Run(capacity, EMPTY, ops).cursor <= k
    ensures var s := Run(capacity, EMPTY, ops);
            var s' := Run(capacity, s, TriggerSteps(limit, k));
            s'.cursor == |s.bus| && s'.considered == s.bus
  {
    RunKeeps(capacity, EMPTY, ops);
    PollingCatchesUp(capacity, Run(capacity, EMPTY, ops), limit, k);
  }

  // ---------------------------------------------------------------- what each step publishes and reads

  /** The keys notified on the bus, in bus order. */
  function NotesOf(bus: seq<BusEvent>): seq<string> {
    if bus == [] then []
    else NotesOf(bus[..|bus| - 1])
         + if bus[|bus| - 1].payload.Notification? then [bus[|bus| - 1].payload.key] else []
  }

  function ListedBy(op: Op): seq<string> {
    if op.Drain? then op.notes else []
  }

  /** The keys that the notification source listed at the drains of a run, in order. */
  function NotesListed(ops: seq<Op>): seq<string> {
    if ops == [] then [] else ListedBy(ops[0]) + NotesListed(ops[1..])
  }

  /** Every key at its first appearance, none later. */
  function Firsts(keys: seq<string>): seq<string> {
    if keys == [] then []
    else
      var front, last := keys[..|keys| - 1], keys[|keys| - 1];
      Firsts(front) + if last in front then [] else [last]
  }

  predicate NoDuplicates(keys: seq<string>) {
    forall i, j | 0 <= i < j < |keys| :: keys[i] != keys[j]
  }

  predicate SameKeys(some: seq<string>, others: seq<string>) {
    (forall key | key in some :: key in others) && (forall key | key in others :: key in some)
  }

  lemma {:induction false} FirstsAreExact(keys: seq<string>)
    ensures NoDuplicates(Firsts(keys)) && SameKeys(Firsts(keys), keys)
  {
    if keys != [] {
      var front, last := keys[..|keys| - 1], keys[|keys| - 1];
      FirstsAreExact(front);
      assert keys == front + [last];
    }
  }

  lemma {:induction false} FirstsGrow(keys: seq<string>, more: seq<string>)
    ensures Firsts(keys) <= Firsts(keys + more)
  {
    if more == [] {
      assert keys + more == keys;
    } else {
      FirstsGrow(keys, more[..|more| - 1]);
      assert (keys + more)[..|keys + more| - 1] == keys + more[..|more| - 1];
    }
  }

  lemma NotesOfPublish(bus: seq<BusEvent>, payload: Payload)
    ensures NotesOf(Publish(bus, payload)) == NotesOf(bus) + if payload.Notification? then [payload.key] else []
  {
    assert Publish(bus, payload)[..|bus|] == bus;
  }

  /** `more` were published on top of `bus`, in order. */
  ghost predicate Adds(bus: seq<BusEvent>, more: seq<Payload>, bus': seq<BusEvent>) {
    && |bus'| == |bus| + |more| && bus <= bus'
    && forall i | 0 <= i < |more| :: bus'[|bus| + i].payload == more[i]
  }

  lemma AddsOne(bus: seq<BusEvent>, more: seq<Payload>, bus': seq<BusEvent>, payload: Payload)
    requires Adds(bus, more, bus')
    ensures Adds(bus, more + [payload], Publish(bus', payload))
  {
  }

  lemma AddsTrans(bus: seq<BusEvent>, some: seq<Payload>, mid: seq<BusEvent>, more: seq<Payload>,
                  bus': seq<BusEvent>)
    requires Adds(bus, some, mid) && Adds(mid, more, bus')
    ensures Adds(bus, some + more, bus')
  {
    forall i | 0 <= i < |some + more|
      ensures bus'[|bus| + i].payload == (some + more)[i]
    {
      if i < |some| {
        assert bus'[|bus| + i] == mid[|bus| + i];
      } else {
        assert |bus| + i == |mid| + (i - |some|);
      }
    }
  }

  function AsUi(events: seq<RingEvent>): seq<Payload> {
    seq(|events|, i requires 0 <= i < |events| => Ui(events[i]))
  }

  function AsNotes(keys: seq<string>): seq<Payload> {
    seq(|keys|, i requires 0 <= i < |keys| => Notification(keys[i]))
  }

  lemma {:induction false} PublishUiAdds(bus: seq<BusEvent>, events: seq<RingEvent>)
    ensures Adds(bus, AsUi(events), PublishUi(bus, events))
    ensures NotesOf(PublishUi(bus, events)) == NotesOf(bus)
  {
    if events != [] {
      var front, last := events[..|events| - 1], events[|events| - 1];
      PublishUiAdds(bus, front);
      AddsOne(bus, AsUi(front), PublishUi(bus, front), Ui(last));
      NotesOfPublish(PublishUi(bus, front), Ui(last));
      assert AsUi(events) == AsUi(front) + [Ui(last)];
    }
  }

  /** The bus and the seen keys, given all keys listed so far. */
  ghost predicate NotesInv(bus: seq<BusEvent>, seen: set<string>, listed: seq<string>) {
    NotesOf(bus) == Firsts(listed) && forall key :: key in seen <==> key in listed
  }

  lemma FirstsSnoc(listed: seq<string>, key: string)
    ensures Firsts(listed + [key]) == Firsts(listed) + if key in listed then [] else [key]
  {
    assert (listed + [key])[..|listed|] == listed;
  }

  /** One more key listed. */
  lemma NoteAdds(bus: seq<BusEvent>, mid: seq<BusEvent>, seen: set<string>, before: seq<string>,
                 listed: seq<string>, key: string)
    requires NotesInv(mid, seen, listed) && Firsts(before) <= Firsts(listed)
    requires Adds(bus, AsNotes(Firsts(listed)[|Firsts(before)|..]), mid)
    ensures var (bus', seen') := if key in seen then (mid, seen) else (Publish(mid, Notification(key)), seen + {key});
            && NotesInv(bus', seen', listed + [key])
            && Adds(bus, AsNotes(Firsts(listed + [key])[|Firsts(before)|..]), bus')
  {
    var n := |Firsts(before)|;
    FirstsSnoc(listed, key);
    if key !in seen {
      NotesOfPublish(mid, Notification(key));
      AddsOne(bus, AsNotes(Firsts(listed)[n..]), mid, Notification(key));
      assert AsNotes((Firsts(listed) + [key])[n..]) == AsNotes(Firsts(listed)[n..]) + [Notification(key)];
    }
  }

  lemma {:induction false} PublishNotesAdds(bus: seq<BusEvent>, seen: set<string>, listed: seq<string>,
                                            notes: seq<string>)
    requires NotesInv(bus, seen, listed)
    ensures var (bus', seen') := PublishNotes(bus, seen, notes);
            && NotesInv(bus', seen', listed + notes)
            && Firsts(listed) <= Firsts(listed + notes)
            && Adds(bus, AsNotes(Firsts(listed + notes)[|Firsts(listed)|..]), bus')
    decreases |notes|
  {
    FirstsGrow(listed, notes);
    if notes == [] {
      assert listed + notes == listed;
    } else {
      var front, key := notes[..|notes| - 1], notes[|notes| - 1];
      PublishNotesAdds(bus, seen, listed, front);
      var (mid, seen') := PublishNotes(bus, seen, front);
      NoteAdds(bus, mid, seen', listed, listed + front, key);
      assert listed + front + [key] == listed + notes;
    }
  }

  /** A drain publishes the unguarded UI events first, then the keys not listed before. */
  ghost predicate DrainAdds(capacity: nat, s: State, op: Op, listed: seq<string>)
    requires op.Drain?
  {
    var from := SelectedFrom(capacity, |s.log|, s.uiCursor, op.max);
    var to := SelectedTo(capacity, |s.log|, s.uiCursor, op.max);
    && 0 <= from <= to <= |s.log| && Firsts(listed) <= Firsts(listed + op.notes)
    && Adds(s.bus, AsUi(Unguarded(s.log[from..to], op.guarded))
                   + AsNotes(Firsts(listed + op.notes)[|Firsts(listed)|..]),
            Next(capacity, s, op).bus)
  }

  lemma DrainStepAdds(capacity: nat, s: State, op: Op, listed: seq<string>)
    requires op.Drain? && Inv(capacity, s) && NotesInv(s.bus, s.seen, listed)
    ensures NotesInv(Next(capacity, s, op).bus, Next(capacity, s, op).seen, listed + op.notes)
    ensures DrainAdds(capacity, s, op, listed)
  {
    QuerySelects(capacity, s.buffer, s.log, s.uiCursor, op.max);
    var events := Unguarded(Query(s.buffer, s.uiCursor, op.max).0, op.guarded);
    var mid := PublishUi(s.bus, events);
    PublishUiAdds(s.bus, events);
    PublishNotesAdds(mid, s.seen, listed, op.notes);
    AddsTrans(s.bus, AsUi(events), mid, AsNotes(Firsts(listed + op.notes)[|Firsts(listed)|..]),
              Next(capacity, s, op).bus);
  }

  lemma StepNotes(capacity: nat, s: State, op: Op, listed: seq<string>)
    requires Inv(capacity, s) && NotesInv(s.bus, s.seen, listed)
    ensures NotesInv(Next(capacity, s, op).bus, Next(capacity, s, op).seen, listed + ListedBy(op))
  {
    if op.Drain? {
      DrainStepAdds(capacity, s, op, listed);
    } else {
      assert listed + [] == listed;
      NotesOfPublish(s.bus, OtherData);
    }
  }

  lemma Regroup(a: seq<string>, b: seq<string>, c: seq<string>)
    ensures a + b + c == a + (b + c)
  {
  }

  lemma {:induction false} RunNotes(capacity: nat, s: State, ops: seq<Op>, listed: seq<string>)
    requires Inv(capacity, s) && NotesInv(s.bus, s.seen, listed)
    ensures NotesInv(Run(capacity, s, ops).bus, Run(capacity, s, ops).seen, listed + NotesListed(ops))
    decreases |ops|
  {
    if ops == [] {
      assert listed + [] == listed;
    } else {
      var s', first := Next(capacity, s, ops[0]), ListedBy(ops[0]);
      StepKeeps(capacity, s, ops[0]);
      StepNotes(capacity, s, ops[0], listed);
      Regroup(listed, first, NotesListed(ops[1..]));
      hide Next;
      hide Inv;
      RunNotes(capacity, s', ops[1..], listed + first);
    }
  }

  lemma NothingNoted(capacity: nat, keys: seq<string>)
    ensures Inv(capacity, EMPTY) && NotesInv(EMPTY.bus, EMPTY.seen, []) && [] + keys == keys
  {
  }

  lemma NotesOfRun(capacity: nat, ops: seq<Op>)
    ensures var s := Run(capacity, EMPTY, ops); Inv(capacity, s) && NotesInv(s.bus, s.seen, NotesListed(ops))
  {
    hide *;
    NothingNoted(capacity, NotesListed(ops));
    RunKeeps(capacity, EMPTY, ops);
    RunNotes(capacity, EMPTY, ops, []);
  }

  /** Over every run each listed notification key is on the bus exactly once, and the keys stand in
      the order in which they were first listed, whatever else is published in between. */
  lemma NotesExactlyOnce(capacity: nat, ops: seq<Op>)
    ensures var notes := NotesOf(Run(capacity, EMPTY, ops).bus);
            notes == Firsts(NotesListed(ops)) && NoDuplicates(notes) && SameKeys(notes, NotesListed(ops))
  {
    NotesOfRun(capacity, ops);
    FirstsAreExact(NotesListed(ops));
    hide Run;
  }

  /** After any run, a drain publishes exactly these: the unguarded events of its stretch of the log
      in order, then the keys it is the first to list in order. */
  lemma DrainPublishesExactly(capacity: nat, ops: seq<Op>, op: Op)
    requires op.Drain?
    ensures DrainAdds(capacity, Run(capacity, EMPTY, ops), op, NotesListed(ops))
  {
    hide *;
    NotesOfRun(capacity, ops);
    DrainStepAdds(capacity, Run(capacity, EMPTY, ops), op, NotesListed(ops));
  }

  lemma TakeOfStretch(bus: seq<BusEvent>, from: nat, to: nat, n: nat)
    requires from <= to <= |bus|
    ensures Take(bus[from..to], n) == bus[from..from + if n < to - from then n else to - from]
  {
  }

  /** From `s` to `s'` the cursor moves over up to `limit` unread events, and those events are
      considered, or only the ones before the one whose handling raises. */
  ghost predicate Reads(s: State, limit: nat, raisesAt: Option<nat>, s': State) {
    var unread := |s.bus| - s.cursor;
    var read := if limit < unread then limit else unread;
    var handled := if raisesAt.Some? && raisesAt.value < read then raisesAt.value else read;
    && 0 <= unread && s'.cursor == s.cursor + read && s'.bus == s.bus
    && s'.considered == s.considered + s.bus[s.cursor..s.cursor + handled]
  }

  /** How many events of a poll are read, and how many of them handled. */
  function ReadCount(unread: nat, limit: nat): nat {
    if limit < unread then limit else unread
  }

  function HandledCount(count: nat, raisesAt: Option<nat>): nat {
    if raisesAt.Some? && raisesAt.value < count then raisesAt.value else count
  }

  lemma BatchHandled(bus: seq<BusEvent>, from: nat, limit: nat, raisesAt: Option<nat>)
    requires BusInv(bus) && from <= |bus|
    ensures var (batch, cursor) := BusPoll(bus, from, limit);
            var count := ReadCount(|bus| - from, limit);
            && cursor == from + count
            && (if raisesAt.None? then batch else Take(batch, raisesAt.value))
               == bus[from..from + HandledCount(count, raisesAt)]
  {
    PollSlices(bus, from, limit);
    TakeOfStretch(bus, from, BusPoll(bus, from, limit).1, if raisesAt.None? then 0 else raisesAt.value);
    hide BusPoll;
    hide Take;
    hide BusInv;
  }

  lemma StepReads(capacity: nat, s: State, limit: nat, raisesAt: Option<nat>)
    requires BusInv(s.bus) && s.cursor <= |s.bus|
    ensures Reads(s, limit, raisesAt, Next(capacity, s, TriggerStep(limit, raisesAt)))
  {
    BatchHandled(s.bus, s.cursor, limit, raisesAt);
    hide BusPoll;
    hide Take;
    hide BusInv;
  }

  /** So it is after any run. */
  lemma TriggerStepReads(capacity: nat, ops: seq<Op>, limit: nat, raisesAt: Option<nat>)
    ensures var s := Run(capacity, EMPTY, ops);
            Reads(s, limit, raisesAt, Next(capacity, s, TriggerStep(limit, raisesAt)))
  {
    RunKeeps(capacity, EMPTY, ops);
    StepReads(capacity, Run(capacity, EMPTY, ops), limit, raisesAt);
  }

  // ---------------------------------------------------------------- the poller's code

  class EventPoller {
    const bus: EventBus
    const ring: EventRing
    var uiCursor: int
    var seen: set<string>

    constructor (bus: EventBus, ring: EventRing)
      ensures this.bus == bus && this.ring == ring && uiCursor == 0 && seen == {}
    {
      this.bus, this.ring := bus, ring;
      uiCursor, seen := 0, {};
    }

    /** One drain: the companion filters guarded packages after selecting, so the cursor passes them. */
    method DrainOnce(max: int, guarded: set<string>, notes: seq<string>) returns (published: nat)
      requires bus.Valid()
      modifies this, bus
      ensures bus.Valid()
      ensures var (selected, cursor) := Query(ring.buffer, old(uiCursor), max);
              && uiCursor == cursor
              && (bus.events, seen)
                 == PublishNotes(PublishUi(old(bus.events), Unguarded(selected, guarded)), old(seen), notes)
      ensures published == |bus.events| - |old(bus.events)|
    {
      var selected, cursor := ring.QueryRing(uiCursor, max);
      var events := Unguarded(selected, guarded);
      published := 0;
      for i := 0 to |events|
        invariant bus.Valid() && uiCursor == old(uiCursor) && seen == old(seen)
        invariant bus.events == PublishUi(old(bus.events), events[..i])
        invariant published == |bus.events| - |old(bus.events)|
      {
        PublishNextUi(old(bus.events), events, i);
        var _ := bus.PublishEvent(Ui(events[i]));
        published := published + 1;
      }
      assert events[..|events|] == events;
      uiCursor := cursor;
      ghost var afterUi := bus.events;
      for i := 0 to |notes|
        invariant bus.Valid() && uiCursor == cursor
        invariant (bus.events, seen) == PublishNotes(afterUi, old(seen), notes[..i])
        invariant published == |bus.events| - |old(bus.events)|
      {
        PublishNextNote(afterUi, old(seen), notes, i);
        if notes[i] !in seen {
          seen := seen + {notes[i]};
          var _ := bus.PublishEvent(Notification(notes[i]));
          published := published + 1;
        }
      }
      assert notes[..|notes|] == notes;
    }
  }
}
