/** The companion transport: one reused connection, a resend after a failed send, and a replay for
    read-only methods.  Which operations of the network fail is decided by a script, one per
    request; statements hold for every script. */
module Transport {
  import opened Common

  type RequestId = string
  type Method = string

  /** What one `readline` yields before the deadline. */
  datatype Read =
    | Reply(rid: RequestId, body: string)   // a JSON object carrying a request id
    | Garbage                               // a line that is not JSON
    | Eof
    | Broken                                // the read raises

  /** Connection `first` is used for the first send, connection `second` for a resend or a replay. */
  datatype Script = Script(
    checkedAt: Time, stampedAt: Time, failedAt: Time,
    connects1: bool, sends1: bool, lines1: seq<Read>,
    connects2: bool, sends2: bool, lines2: seq<Read>,
    firstConn: nat, secondConn: nat)

  datatype State = State(
    conn: Option<nat>, usedAt: Time, alive: Option<(Time, bool)>,
    sent: seq<(Method, RequestId)>)         // the complete lines put on the wire, oldest first

  datatype Outcome =
    | Answered(rid: RequestId, body: string)
    | TimedOut(rid: RequestId)               // the timeout envelope
    | Raised

  const REUSE_IDLE: Time := 20.0

  const READ_ONLY: set<Method> := {
    "ping", "handshake", "version", "capabilities",
    "observe_native", "events", "notifications_list", "screenshot"}

  datatype Found = Got(rid: RequestId, body: string) | NoReply | ReadRaised

  /** Read until a line carries the request id; older replies and garbage are passed over. */
  function ReadResponse(lines: seq<Read>, rid: RequestId): Found {
    if lines == [] then NoReply
    else match lines[0]
      case Eof => NoReply
      case Broken => ReadRaised
      case Garbage => ReadResponse(lines[1..], rid)
      case Reply(r, body) => if r == rid then Got(r, body) else ReadResponse(lines[1..], rid)
  }

  predicate Reusable(s: State, now: Time) {
    s.conn.Some? && now - s.usedAt < REUSE_IDLE
  }

  function Send(s: State, name: Method, rid: RequestId): State {
    s.(sent := s.sent + [(name, rid)])
  }

  function Stamp(s: State, conn: nat, now: Time): State {
    s.(conn := Some(conn), usedAt := now, alive := Some((now, true)))
  }

  function RequestLocked(x: Script, s: State, name: Method, rid: RequestId): (Outcome, State) {
    var reused := Reusable(s, x.checkedAt);
    var conn := if reused then s.conn.value else x.firstConn;
    var s1 := if reused then s else s.(conn := None);
    if !reused && !x.connects1 then (Raised, s1)
    else if x.sends1 then AfterSend(x, Send(s1, name, rid), conn, reused, x.lines1, name, rid)
    else if !reused then (Raised, s1)
    else
      var s2 := s1.(conn := None);
      if !x.connects2 || !x.sends2 then (Raised, s2)
      else AfterSend(x, Send(s2, name, rid), x.secondConn, false, x.lines2, name, rid)
  }

  function AfterSend(x: Script, s: State, conn: nat, reused: bool, lines: seq<Read>, name: Method, rid: RequestId)
    : (Outcome, State)
  {
    match ReadResponse(lines, rid)
    case ReadRaised => (Raised, s)
    case Got(r, body) => (Answered(r, body), Stamp(s, conn, x.stampedAt))
    case NoReply =>
      var dropped := s.(conn := None);
      if reused && name in READ_ONLY then
        if !x.connects2 || !x.sends2 then (Raised, dropped)
        else
          var replayed := Send(dropped, name, rid);
          match ReadResponse(x.lines2, rid)
          case ReadRaised => (Raised, replayed)
          case Got(r, body) => (Answered(r, body), Stamp(replayed, x.secondConn, x.stampedAt))
          case NoReply => (TimedOut(rid), replayed)
      else (TimedOut(rid), dropped)
  }

  function Request(x: Script, s: State, name: Method, rid: RequestId): (Outcome, State) {
    var (outcome, s') := RequestLocked(x, s, name, rid);
    (outcome, if outcome.Raised? then s'.(alive := Some((x.failedAt, false))) else s')
  }

  // ---------------------------------------------------------------- one request

  lemma {:induction false} FoundWasRead(lines: seq<Read>, rid: RequestId)
    ensures var f := ReadResponse(lines, rid);
            f.Got? ==> f.rid == rid && Reply(rid, f.body) in lines
  {
    if lines != [] {
      FoundWasRead(lines[1..], rid);
    }
  }

  /** How many copies of its line a request puts on the wire. */
  function Copies(x: Script, s: State, name: Method, rid: RequestId): nat {
    |Request(x, s, name, rid).1.sent| - |s.sent|
  }

  /** Whatever fails: nothing sent before is lost or changed, at most one copy of the line is sent,
      two only for a read-only method whose cached connection gave no reply; every dictionary
      returned carries the request's own id, and a reply is one that was read for it. */
  lemma RequestIsAtMostOnce(x: Script, s: State, name: Method, rid: RequestId)
    ensures var (outcome, s') := Request(x, s, name, rid);
            var n := Copies(x, s, name, rid);
            && s'.sent == s.sent + seq(n, _ => (name, rid))
            && (n <= 1 || (n == 2 && name in READ_ONLY && Reusable(s, x.checkedAt)
                           && ReadResponse(x.lines1, rid).NoReply?))
            && (!outcome.Raised? ==> n >= 1 && outcome.rid == rid)
            && (outcome.Answered? ==> Reply(rid, outcome.body) in x.lines1 + x.lines2)
  {
    FoundWasRead(x.lines1, rid);
    FoundWasRead(x.lines2, rid);
    var (outcome, s') := Request(x, s, name, rid);
    var one, two := [(name, rid)], [(name, rid), (name, rid)];
    assert s'.sent == s.sent || s'.sent == s.sent + one || s'.sent == s.sent + one + one;
    assert s.sent + one + one == s.sent + two;
    assert two == seq(2, _ => (name, rid)) && one == seq(1, _ => (name, rid));
    assert s.sent + [] == s.sent;
  }

  /** A line that the read loop passes over. */
  predicate Skipped(line: Read, rid: RequestId) {
    line.Garbage? || (line.Reply? && line.rid != rid)
  }

  /** The first line the loop does not pass over is at `k`. */
  ghost predicate StopsAt(lines: seq<Read>, rid: RequestId, k: nat) {
    k < |lines| && !Skipped(lines[k], rid) && forall j | 0 <= j < k :: Skipped(lines[j], rid)
  }

  /** Reading ends at the first line that is neither garbage nor a reply to another request, and
      that line alone decides; without one there is no reply. */
  lemma {:induction false} ReadStopsAtFirst(lines: seq<Read>, rid: RequestId)
    ensures forall k: nat :: StopsAt(lines, rid, k) ==>
              ReadResponse(lines, rid) == match lines[k]
                                          case Reply(_, body) => Got(rid, body)
                                          case Broken => ReadRaised
                                          case _ => NoReply
    ensures (forall line | line in lines :: Skipped(line, rid)) ==> ReadResponse(lines, rid).NoReply?
  {
    if lines != [] && Skipped(lines[0], rid) {
      ReadStopsAtFirst(lines[1..], rid);
      forall k: nat | StopsAt(lines, rid, k)
        ensures k > 0 && StopsAt(lines[1..], rid, k - 1) && lines[1..][k - 1] == lines[k]
      {
        assert k > 0;
        assert forall j | 0 <= j < k - 1 :: lines[1..][j] == lines[j + 1];
      }
    } else if lines != [] {
      assert lines[0] in lines;
    }
  }

  /** The first send reaches the wire and its connection yields the reply. */
  predicate AnsweredFirst(x: Script, s: State, rid: RequestId) {
    (Reusable(s, x.checkedAt) || x.connects1) && x.sends1 && ReadResponse(x.lines1, rid).Got?
  }

  /** The cached connection fails, in sending or (for a read-only method) in answering, and a second
      connection yields the reply. */
  predicate AnsweredSecond(x: Script, s: State, name: Method, rid: RequestId) {
    && Reusable(s, x.checkedAt)
    && (!x.sends1 || (ReadResponse(x.lines1, rid).NoReply? && name in READ_ONLY))
    && x.connects2 && x.sends2 && ReadResponse(x.lines2, rid).Got?
  }

  /** A request is answered exactly in these two ways, and then the connection that carried the
      answer is the one that is cached. */
  lemma AnswersExactly(x: Script, s: State, name: Method, rid: RequestId)
    ensures var (outcome, s') := Request(x, s, name, rid);
            && (outcome.Answered? <==> AnsweredFirst(x, s, rid) || AnsweredSecond(x, s, name, rid))
            && (AnsweredFirst(x, s, rid) ==>
                  && Reply(rid, outcome.body) in x.lines1
                  && s'.conn == Some(if Reusable(s, x.checkedAt) then s.conn.value else x.firstConn))
            && (AnsweredSecond(x, s, name, rid) ==>
                  Reply(rid, outcome.body) in x.lines2 && s'.conn == Some(x.secondConn))
  {
    FoundWasRead(x.lines1, rid);
    FoundWasRead(x.lines2, rid);
  }

  /** After an answer the connection is stamped; after a timeout none is cached; and a companion is
      marked dead exactly by a request that raises. */
  lemma ConnectionAfterRequest(x: Script, s: State, name: Method, rid: RequestId)
    ensures var (outcome, s') := Request(x, s, name, rid);
            match outcome
            case Answered(_, _) => s'.conn.Some? && s'.usedAt == x.stampedAt && s'.alive == Some((x.stampedAt, true))
            case TimedOut(_) => s'.conn.None? && s'.alive == s.alive
            case Raised => s'.alive == Some((x.failedAt, false)) && (s'.conn == s.conn || s'.conn.None?)
  {
  }

  // ---------------------------------------------------------------- every outcome

  /** The first line not passed over is the reply, with this body. */
  ghost predicate Replies(lines: seq<Read>, rid: RequestId, body: string) {
    exists k: nat :: StopsAt(lines, rid, k) && lines[k] == Reply(rid, body)
  }

  ghost predicate RepliesAtAll(lines: seq<Read>, rid: RequestId) {
    exists body :: Replies(lines, rid, body)
  }

  /** The first line not passed over is a read that raises. */
  ghost predicate Breaks(lines: seq<Read>, rid: RequestId) {
    exists k: nat :: StopsAt(lines, rid, k) && lines[k].Broken?
  }

  /** All lines are passed over, or the first that is not is the end of the stream. */
  ghost predicate Silent(lines: seq<Read>, rid: RequestId) {
    || (forall line | line in lines :: Skipped(line, rid))
    || exists k: nat :: StopsAt(lines, rid, k) && lines[k].Eof?
  }

  lemma {:induction false} FirstStop(lines: seq<Read>, rid: RequestId) returns (k: nat)
    requires exists line :: line in lines && !Skipped(line, rid)
    ensures StopsAt(lines, rid, k)
  {
    if !Skipped(lines[0], rid) {
      return 0;
    }
    assert lines == [lines[0]] + lines[1..];
    var before := FirstStop(lines[1..], rid);
    k := before + 1;
    assert forall j | 1 <= j < k :: lines[j] == lines[1..][j - 1];
  }

  lemma StopIsUnique(lines: seq<Read>, rid: RequestId, k: nat, k': nat)
    requires StopsAt(lines, rid, k) && StopsAt(lines, rid, k')
    ensures k == k'
  {
  }

  /** A read finds the reply, nothing, or an exception, and which is decided by the first line that is
      not passed over. */
  lemma FoundExactly(lines: seq<Read>, rid: RequestId)
    ensures var f := ReadResponse(lines, rid);
            && (f.NoReply? <==> Silent(lines, rid))
            && (f.ReadRaised? <==> Breaks(lines, rid))
            && (f.Got? <==> RepliesAtAll(lines, rid))
            && (f.Got? ==> f.rid == rid && Replies(lines, rid, f.body))
  {
    ReadStopsAtFirst(lines, rid);
    if line :| line in lines && !Skipped(line, rid) {
      var k := FirstStop(lines, rid);
      forall k': nat | StopsAt(lines, rid, k')
        ensures k' == k
      {
        StopIsUnique(lines, rid, k, k');
      }
      match lines[k] {
        case Reply(r, body) => assert Replies(lines, rid, body);
        case _ =>
      }
    }
  }

  /** The cached connection is used while its last answer is less than 20 seconds old. */
  predicate UsesCached(x: Script, s: State) {
    s.conn.Some? && x.checkedAt - s.usedAt < 20.0
  }

  /** The methods that only read, which may be sent again when their answer is lost. */
  predicate OnlyReads(name: Method) {
    || name == "ping" || name == "handshake" || name == "version" || name == "capabilities"
    || name == "observe_native" || name == "events" || name == "notifications_list" || name == "screenshot"
  }

  predicate FirstSent(x: Script, s: State) {
    (UsesCached(x, s) || x.connects1) && x.sends1
  }

  /** A second connection is due: the cached one failed in sending, or gave no reply to a method that
      only reads. */
  ghost predicate SecondDue(x: Script, s: State, name: Method, rid: RequestId) {
    UsesCached(x, s) && (!x.sends1 || (OnlyReads(name) && Silent(x.lines1, rid)))
  }

  ghost predicate SecondSent(x: Script, s: State, name: Method, rid: RequestId) {
    SecondDue(x, s, name, rid) && x.connects2 && x.sends2
  }

  lemma LiteralsAgree(x: Script, s: State, name: Method)
    ensures Reusable(s, x.checkedAt) <==> UsesCached(x, s)
    ensures name in READ_ONLY <==> OnlyReads(name)
  {
  }

  /** How exactly a request ends.  It is answered if a connection its line went out on replies; it ends
      by the timeout envelope if the last such connection was silent and no other is due; and it raises
      if a connection or a send that was due failed, or a read broke. */
  lemma OutcomeExactly(x: Script, s: State, name: Method, rid: RequestId)
    ensures var outcome := Request(x, s, name, rid).0;
            && (outcome.Answered? <==>
                  || (FirstSent(x, s) && RepliesAtAll(x.lines1, rid))
                  || (SecondSent(x, s, name, rid) && RepliesAtAll(x.lines2, rid)))
            && (outcome == TimedOut(rid) <==>
                  || (FirstSent(x, s) && Silent(x.lines1, rid) && !SecondDue(x, s, name, rid))
                  || (SecondSent(x, s, name, rid) && Silent(x.lines2, rid)))
            && (outcome.Raised? <==>
                  || (!FirstSent(x, s) && !SecondDue(x, s, name, rid))
                  || (SecondDue(x, s, name, rid) && !SecondSent(x, s, name, rid))
                  || (FirstSent(x, s) && Breaks(x.lines1, rid))
                  || (SecondSent(x, s, name, rid) && Breaks(x.lines2, rid)))
            && (outcome.Answered? ==>
                  && outcome.rid == rid
                  && if FirstSent(x, s) && RepliesAtAll(x.lines1, rid) then Replies(x.lines1, rid, outcome.body)
                     else Replies(x.lines2, rid, outcome.body))
  {
    LiteralsAgree(x, s, name);
    FoundExactly(x.lines1, rid);
    FoundExactly(x.lines2, rid);
  }

  /** And what it leaves: the copies of its line on the wire, the cached connection, and what is noted
      about the companion. */
  lemma StateExactly(x: Script, s: State, name: Method, rid: RequestId)
    ensures var (outcome, s') := Request(x, s, name, rid);
            var n := (if FirstSent(x, s) then 1 else 0) + (if SecondSent(x, s, name, rid) then 1 else 0);
            && s'.sent == s.sent + seq(n, _ => (name, rid))
            && match outcome
               case Answered(_, _) =>
                 && s'.usedAt == x.stampedAt && s'.alive == Some((x.stampedAt, true))
                 && s'.conn == Some(if SecondSent(x, s, name, rid) then x.secondConn
                                    else if UsesCached(x, s) then s.conn.value else x.firstConn)
               case TimedOut(_) => s'.usedAt == s.usedAt && s'.alive == s.alive && s'.conn == None
               case Raised =>
                 && s'.usedAt == s.usedAt && s'.alive == Some((x.failedAt, false))
                 && s'.conn == if UsesCached(x, s) && x.sends1 && Breaks(x.lines1, rid) then s.conn else None
  {
    LiteralsAgree(x, s, name);
    FoundExactly(x.lines1, rid);
    FoundExactly(x.lines2, rid);
    assert s.sent + [] == s.sent;
    assert seq(1, _ => (name, rid)) == [(name, rid)] && seq(2, _ => (name, rid)) == [(name, rid)] + [(name, rid)];
    assert s.sent + [(name, rid)] + [(name, rid)] == s.sent + ([(name, rid)] + [(name, rid)]);
  }

  // ---------------------------------------------------------------- whole sessions

  datatype Call = Call(script: Script, name: Method, rid: RequestId)

  function Session(s: State, calls: seq<Call>): State {
    if calls == [] then s
    else
      var c := calls[|calls| - 1];
      Request(c.script, Session(s, calls[..|calls| - 1]), c.name, c.rid).1
  }

  function Deliveries(sent: seq<(Method, RequestId)>, rid: RequestId): nat {
    if sent == [] then 0
    else Deliveries(sent[..|sent| - 1], rid) + if sent[|sent| - 1].1 == rid then 1 else 0
  }

  lemma {:induction false} DeliveriesAfter(sent: seq<(Method, RequestId)>, m: Method, r: RequestId, n: nat,
                                           rid: RequestId)
    ensures Deliveries(sent + seq(n, _ => (m, r)), rid) == Deliveries(sent, rid) + if r == rid then n else 0
    decreases n
  {
    var copies := seq(n, _ => (m, r));
    if n == 0 {
      assert sent + copies == sent;
    } else {
      var fewer := seq(n - 1, _ => (m, r));
      assert (sent + copies)[..|sent| + n - 1] == sent + fewer;
      DeliveriesAfter(sent, m, r, n - 1, rid);
    }
  }

  ghost predicate DistinctIds(calls: seq<Call>) {
    forall i, j | 0 <= i < j < |calls| :: calls[i].rid != calls[j].rid
  }

  const CLOSED := State(None, 0.0, None, [])

  /** How often the line of one request may reach the wire. */
  function Allowance(name: Method): nat {
    if name in READ_ONLY then 2 else 1
  }

  lemma LastCallDelivers(calls: seq<Call>, rid: RequestId)
    requires calls != []
    ensures var c := calls[|calls| - 1];
            Deliveries(Session(CLOSED, calls).sent, rid)
            <= Deliveries(Session(CLOSED, calls[..|calls| - 1]).sent, rid)
               + if c.rid == rid then Allowance(c.name) else 0
  {
    var c := calls[|calls| - 1];
    var s := Session(CLOSED, calls[..|calls| - 1]);
    RequestIsAtMostOnce(c.script, s, c.name, c.rid);
    DeliveriesAfter(s.sent, c.name, c.rid, Copies(c.script, s, c.name, c.rid), rid);
  }

  lemma {:induction false} UnusedIdIsNotDelivered(calls: seq<Call>, rid: RequestId)
    requires forall c | c in calls :: c.rid != rid
    ensures Deliveries(Session(CLOSED, calls).sent, rid) == 0
  {
    if calls != [] {
      LastCallDelivers(calls, rid);
      UnusedIdIsNotDelivered(calls[..|calls| - 1], rid);
      assert calls[|calls| - 1] in calls;
    }
  }

  /** Over a whole session with distinct request ids, under any failures, the line of a mutating
      request reaches the wire at most once, and that of a read-only one at most twice. */
  lemma {:induction false} SessionIsAtMostOnce(calls: seq<Call>, i: nat)
    requires DistinctIds(calls) && i < |calls|
    ensures Deliveries(Session(CLOSED, calls).sent, calls[i].rid) <= Allowance(calls[i].name)
  {
    var n := |calls| - 1;
    LastCallDelivers(calls, calls[i].rid);
    if i == n {
      UnusedIdIsNotDelivered(calls[..n], calls[i].rid);
    } else {
      SessionIsAtMostOnce(calls[..n], i);
    }
  }

  /** What the `i`-th call of a session returned. */
  function OutcomeAt(calls: seq<Call>, i: nat): Outcome
    requires i < |calls|
  {
    Request(calls[i].script, Session(CLOSED, calls[..i]), calls[i].name, calls[i].rid).0
  }

  /** The `i`-th call was answered, and all calls after it raised. */
  ghost predicate LastAnswer(calls: seq<Call>, i: nat) {
    i < |calls| && OutcomeAt(calls, i).Answered? && forall j | i < j < |calls| :: OutcomeAt(calls, j).Raised?
  }

  lemma RaisedKeepsStamp(x: Script, s: State, name: Method, rid: RequestId)
    ensures var (outcome, s') := Request(x, s, name, rid);
            outcome.Raised? && s'.conn.Some? ==> s'.conn == s.conn && s'.usedAt == s.usedAt
  {
  }

  /** A connection cached after a call carried its answer, or was cached before and the call raised. */
  predicate FreshOrKept(x: Script, o: Outcome, s: State, s': State) {
    s'.conn.Some? ==>
      || (o.Answered? && s'.usedAt == x.stampedAt)
      || (o.Raised? && s'.conn == s.conn && s'.usedAt == s.usedAt)
  }

  lemma ConnectionIsFreshOrKept(x: Script, s: State, name: Method, rid: RequestId)
    ensures FreshOrKept(x, Request(x, s, name, rid).0, s, Request(x, s, name, rid).1)
  {
    ConnectionAfterRequest(x, s, name, rid);
    RaisedKeepsStamp(x, s, name, rid);
  }

  lemma LastCallConnection(calls: seq<Call>)
    requires calls != []
    ensures var n := |calls| - 1;
            FreshOrKept(calls[n].script, OutcomeAt(calls, n), Session(CLOSED, calls[..n]), Session(CLOSED, calls))
  {
    var c := calls[|calls| - 1];
    ConnectionIsFreshOrKept(c.script, Session(CLOSED, calls[..|calls| - 1]), c.name, c.rid);
    hide Request;
    hide FreshOrKept;
  }

  lemma EarlierOutcomes(calls: seq<Call>, n: nat, i: nat)
    requires i < n <= |calls|
    ensures OutcomeAt(calls, i) == OutcomeAt(calls[..n], i)
  {
    assert calls[..n][..i] == calls[..i];
  }

  lemma AnswerStaysLast(calls: seq<Call>, i: nat)
    requires calls != [] && LastAnswer(calls[..|calls| - 1], i) && OutcomeAt(calls, |calls| - 1).Raised?
    ensures LastAnswer(calls, i)
  {
    var n := |calls| - 1;
    EarlierOutcomes(calls, n, i);
    forall j | i < j < |calls|
      ensures OutcomeAt(calls, j).Raised?
    {
      if j < n {
        EarlierOutcomes(calls, n, j);
      }
    }
  }

  /** The cached connection and its stamp are those that the `i`-th call left. */
  ghost predicate Since(calls: seq<Call>, i: nat)
    requires i < |calls|
  {
    && Session(CLOSED, calls).conn == Session(CLOSED, calls[..i + 1]).conn
    && Session(CLOSED, calls).usedAt == calls[i].script.stampedAt
  }

  /** Over a whole session: a cached connection is the one that carried the latest answer, since
      when every call has raised, and it is stamped with the time of that answer. */
  lemma {:induction false} CachedConnectionAnswered(calls: seq<Call>) returns (i: nat)
    requires Session(CLOSED, calls).conn.Some?
    ensures LastAnswer(calls, i) && Since(calls, i)
  {
    var n := |calls| - 1;
    LastCallConnection(calls);
    if OutcomeAt(calls, n).Answered? {
      assert calls[..n + 1] == calls;
      return n;
    }
    i := CachedConnectionAnswered(calls[..n]);
    AnswerStaysLast(calls, i);
    assert calls[..n][..i + 1] == calls[..i + 1];
  }

  // ---------------------------------------------------------------- the transport object

  class SocketTransport {
    var conn: Option<nat>
    var usedAt: Time
    var alive: Option<(Time, bool)>
    ghost var sent: seq<(Method, RequestId)>

    ghost function View(): State
      reads this
    {
      State(conn, usedAt, alive, sent)
    }

    constructor ()
      ensures View() == CLOSED
    {
      conn, usedAt, alive, sent := None, 0.0, None, [];
    }

    method DoRequest(x: Script, name: Method, rid: RequestId) returns (outcome: Outcome)
      modifies this
      ensures (outcome, View()) == Request(x, old(View()), name, rid)
    {
      outcome := DoRequestLocked(x, name, rid);
      if outcome.Raised? {
        alive := Some((x.failedAt, false));
      }
    }

    method DoRequestLocked(x: Script, name: Method, rid: RequestId) returns (outcome: Outcome)
      modifies this
      ensures (outcome, View()) == RequestLocked(x, old(View()), name, rid)
    {
      var reused := conn.Some? && x.checkedAt - usedAt < REUSE_IDLE;
      var current: nat;
      if reused {
        current := conn.value;
      } else {
        conn := None;
        if !x.connects1 {
          return Raised;
        }
        current := x.firstConn;
      }
      var lines := x.lines1;
      if x.sends1 {
        sent := sent + [(name, rid)];
      } else {
        if !reused {
          return Raised;
        }
        conn := None;
        if !x.connects2 || !x.sends2 {
          return Raised;
        }
        current, reused, lines := x.secondConn, false, x.lines2;
        sent := sent + [(name, rid)];
      }
      var found := AwaitReply(lines, rid);
      if found.ReadRaised? {
        return Raised;
      }
      if found.Got? {
        Keep(current, x.stampedAt);
        return Answered(found.rid, found.body);
      }
      conn := None;
      if reused && name in READ_ONLY {
        if !x.connects2 || !x.sends2 {
          return Raised;
        }
        sent := sent + [(name, rid)];
        found := AwaitReply(x.lines2, rid);
        if found.ReadRaised? {
          return Raised;
        }
        if found.Got? {
          Keep(x.secondConn, x.stampedAt);
          return Answered(found.rid, found.body);
        }
      }
      outcome := TimedOut(rid);
    }

    method Keep(current: nat, now: Time)
      modifies this
      ensures View() == Stamp(old(View()), current, now)
    {
      conn, usedAt := Some(current), now;
      alive := Some((usedAt, true));
    }

    /** The read loop; it also stops when the deadline passes, which is the end of the lines. */
    method AwaitReply(lines: seq<Read>, rid: RequestId) returns (found: Found)
      ensures found == ReadResponse(lines, rid)
    {
      for i := 0 to |lines|
        invariant ReadResponse(lines[i..], rid) == ReadResponse(lines, rid)
      {
        assert lines[i..][1..] == lines[i + 1..];
        match lines[i] {
          case Eof => return NoReply;
          case Broken => return ReadRaised;
          case Garbage =>
          case Reply(r, body) =>
            if r == rid {
              return Got(r, body);
            }
        }
      }
      found := NoReply;
    }
  }
}
