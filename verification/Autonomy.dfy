/** The append-only grant ledger and the verdict drawn from it. */
module Autonomy {
  import opened Common

  /** A ledger row.  The source treats an absent id or macro of a revoke like an empty one. */
  datatype Record =
    | Grant(id: string, macro: string, maxRisk: Risk, expiresAt: Option<Time>)
    | Revoke(revokedId: string, revokedMacro: string)
    | OtherRow

  datatype Verdict = Allow | Confirm | Deny

  predicate Expired(g: Record, now: Time)
    requires g.Grant?
  {
    g.expiresAt.Some? && g.expiresAt.value <= now
  }

  // ---------------------------------------------------------------- the ledger fold

  type Live = m: map<string, Record> | forall id <- m :: m[id].Grant? && m[id].id == id

  function WithoutId(live: Live, id: string): Live {
    if id != "" then live - {id} else live
  }

  function WithoutMacro(live: Live, macro: string): Live {
    if macro != "" then map k | k in live && live[k].macro != macro :: live[k] else live
  }

  function Apply(live: Live, r: Record): Live {
    match r
    case Grant(id, _, _, _) => live[id := r]
    case Revoke(id, macro) => WithoutMacro(WithoutId(live, id), macro)
    case OtherRow => live
  }

  function Fold(rows: seq<Record>): Live {
    if rows == [] then map[] else Apply(Fold(rows[..|rows| - 1]), rows[|rows| - 1])
  }

  lemma FoldNext(rows: seq<Record>, i: nat)
    requires i < |rows|
    ensures Fold(rows[..i + 1]) == Apply(Fold(rows[..i]), rows[i])
  {
    assert rows[..i + 1][..i] == rows[..i];
  }

  function LiveGrants(rows: seq<Record>, now: Time): set<Record> {
    var live := Fold(rows);
    set id | id in live && !Expired(live[id], now) :: live[id]
  }

  /** The fold as the source runs it: one pass over the rows, updating a local dictionary. */
  method ComputeLiveGrants(rows: seq<Record>, now: Time) returns (live: set<Record>)
    ensures live == LiveGrants(rows, now)
  {
    var state: Live := map[];
    for i := 0 to |rows|
      invariant state == Fold(rows[..i])
    {
      FoldNext(rows, i);
      var r := rows[i];
      match r {
        case Grant(id, _, _, _) => state := state[id := r];
        case Revoke(id, macro) =>
          if id != "" {
            state := WithoutId(state, id);
          }
          if macro != "" {
            state := WithoutMacro(state, macro);
          }
        case OtherRow =>
      }
    }
    assert rows[..|rows|] == rows;
    live := set id | id in state && !Expired(state[id], now) :: state[id];
  }

  // ---------------------------------------------------------------- what the fold means

  /** A later row that ends a grant: a revoke of its id or of its macro, or a row reusing its id. */
  predicate Ends(r: Record, g: Record)
    requires g.Grant?
  {
    match r
    case Grant(id, _, _, _) => id == g.id
    case Revoke(id, macro) => (id != "" && id == g.id) || (macro != "" && macro == g.macro)
    case OtherRow => false
  }

  /** Row `i` is a grant and no later row ends it. */
  predicate Standing(rows: seq<Record>, i: nat) {
    i < |rows| && rows[i].Grant? && forall j | i < j < |rows| :: !Ends(rows[j], rows[i])
  }

  ghost predicate HasStanding(rows: seq<Record>, g: Record) {
    exists i: nat :: Standing(rows, i) && rows[i] == g
  }

  /** The last row either is the grant or leaves standing what stood and does not end. */
  lemma StandingAfter(front: seq<Record>, r: Record, g: Record)
    requires g.Grant?
    ensures HasStanding(front + [r], g) <==> r == g || (HasStanding(front, g) && !Ends(r, g))
  {
    var rows, n := front + [r], |front|;
    if r == g {
      assert Standing(rows, n) && rows[n] == g;
    } else {
      if HasStanding(front, g) && !Ends(r, g) {
        var i: nat :| Standing(front, i) && front[i] == g;
        assert Standing(rows, i) && rows[i] == g;
      }
      if HasStanding(rows, g) {
        var i: nat :| Standing(rows, i) && rows[i] == g;
        assert rows[n] == r;
        assert forall j | i < j < n :: rows[j] == front[j];
        assert Standing(front, i) && front[i] == g;
      }
    }
  }

  /** The dictionary holds exactly the grants that still stand. */
  lemma {:induction false} FoldExact(rows: seq<Record>, g: Record)
    requires g.Grant?
    ensures (g.id in Fold(rows) && Fold(rows)[g.id] == g) <==> HasStanding(rows, g)
  {
    if rows != [] {
      var n := |rows| - 1;
      FoldExact(rows[..n], g);
      StandingAfter(rows[..n], rows[n], g);
      assert rows == rows[..n] + [rows[n]];
    }
  }

  /** A grant is live exactly when some row granted it, nothing after that row ended it, and its
      time, if it has one, is still to come. */
  lemma LiveGrantsExact(rows: seq<Record>, now: Time, g: Record)
    requires g.Grant?
    ensures g in LiveGrants(rows, now) <==>
              HasStanding(rows, g) && (g.expiresAt.None? || now < g.expiresAt.value)
  {
    FoldExact(rows, g);
  }

  // ---------------------------------------------------------------- the verdict

  function Decide(name: string, requireConfirm: bool, risk: Risk, grants: set<Record>): Verdict {
    var covering := set g | g in grants && g.Grant? && g.macro == name && g.maxRisk.Rank() >= risk.Rank();
    if risk.Critical? then
      if exists g :: g in covering && g.maxRisk.Critical? then Confirm else Deny
    else if requireConfirm then Confirm
    else if covering != {} then Allow else Confirm
  }

  /** A grant up to `have` suffices for an action of risk `need`. */
  predicate Suffices(have: Risk, need: Risk) {
    match need
    case Low => true
    case Medium => have.Medium? || have.High? || have.Critical?
    case High => have.High? || have.Critical?
    case Critical => have.Critical?
  }

  /** A standing, unexpired grant to `name` that reaches `risk`. */
  ghost predicate Covered(rows: seq<Record>, now: Time, name: string, risk: Risk) {
    exists i: nat :: Standing(rows, i) && CoversRow(rows[i], now, name, risk)
  }

  predicate CoversRow(g: Record, now: Time, name: string, risk: Risk)
    requires g.Grant?
  {
    (g.expiresAt.None? || now < g.expiresAt.value) && g.macro == name && Suffices(g.maxRisk, risk)
  }

  lemma CoveredByLive(rows: seq<Record>, now: Time, name: string, risk: Risk)
    ensures Covered(rows, now, name, risk) <==>
            exists g :: g in LiveGrants(rows, now) && g.macro == name && g.maxRisk.Rank() >= risk.Rank()
  {
    if Covered(rows, now, name, risk) {
      var i: nat :| Standing(rows, i) && CoversRow(rows[i], now, name, risk);
      LiveGrantsExact(rows, now, rows[i]);
    }
    assert forall have: Risk :: Suffices(have, risk) <==> have.Rank() >= risk.Rank();
    if g :| g in LiveGrants(rows, now) && g.macro == name && g.maxRisk.Rank() >= risk.Rank() {
      LiveGrantsExact(rows, now, g);
      var i: nat :| Standing(rows, i) && rows[i] == g;
      assert CoversRow(rows[i], now, name, risk);
    }
  }

  /** When each verdict is given, in terms of the ledger alone. */
  lemma DecideExact(name: string, requireConfirm: bool, risk: Risk, rows: seq<Record>, now: Time)
    ensures var v := Decide(name, requireConfirm, risk, LiveGrants(rows, now));
            && (v.Allow? <==> !risk.Critical? && !requireConfirm && Covered(rows, now, name, risk))
            && (v.Deny? <==> risk.Critical? && !Covered(rows, now, name, Critical))
  {
    CoveredByLive(rows, now, name, risk);
    var grants := LiveGrants(rows, now);
    var covering := set g | g in grants && g.Grant? && g.macro == name && g.maxRisk.Rank() >= risk.Rank();
    assert forall g :: g in covering <==> g in grants && g.macro == name && g.maxRisk.Rank() >= risk.Rank();
    assert covering != {} ==> exists g :: g in covering;
  }

  /** A revoke of a macro silences every grant to that macro that precedes it: an action that is
      covered nevertheless is covered by a standing grant appended after the revoke. */
  lemma RevokeSilences(rows: seq<Record>, k: nat, now: Time, name: string, risk: Risk) returns (i: nat)
    requires k < |rows| && rows[k].Revoke? && name != "" && rows[k].revokedMacro == name
    requires Covered(rows, now, name, risk)
    ensures k < i && Standing(rows, i) && CoversRow(rows[i], now, name, risk)
  {
    i :| Standing(rows, i) && CoversRow(rows[i], now, name, risk);
    assert forall j | i < j < |rows| :: !Ends(rows[j], rows[i]);
  }

  /** A revoke by id silences every grant of that id that precedes it: what still covers an action
      is a grant of another id, or one appended after the revoke. */
  lemma RevokeOfGrantSilences(rows: seq<Record>, k: nat, now: Time, name: string, risk: Risk) returns (i: nat)
    requires k < |rows| && rows[k].Revoke? && rows[k].revokedId != ""
    requires Covered(rows, now, name, risk)
    ensures Standing(rows, i) && CoversRow(rows[i], now, name, risk) && (k < i || rows[i].id != rows[k].revokedId)
  {
    i :| Standing(rows, i) && CoversRow(rows[i], now, name, risk);
    assert forall j | i < j < |rows| :: !Ends(rows[j], rows[i]);
  }
}
