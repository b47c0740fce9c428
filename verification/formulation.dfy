/** The integer program `optimize` builds from the player table and the
    restriction lists, and the squad rules it is meant to encode. */
module Formulation {
  import opened Outcome
  import opened Players
  import opened Restrictions
  import opened LinearProgram

  /** The arguments of `optimize` other than the table. */
  datatype Request = Request(
    column: string,
    budget: real,
    defenders: int,
    midfielders: int,
    forwards: int,
    goalkeepers: int,
    teamRestrictions: seq<(string, int)>,
    positionRestrictions: seq<PositionOverride>,
    selection: seq<(string, string)>,
    banned: seq<(string, string)>)

  /** The keyword defaults: budget 100.0 and a (2, 5, 5, 3) lineup. */
  function Defaults(column: string): Request
  {
    Request(column, 100.0, 5, 5, 3, 2, [], [], [], [])
  }

  /** Looking up a score column the table does not have. */
  datatype Error = UnknownColumn(column: string)

  /** Total squad size: the sum of the four positional targets. */
  function RosterSize(req: Request): int
  {
    req.defenders + req.midfielders + req.forwards + req.goalkeepers
  }

  function Target(req: Request, s: Slot): int
  {
    match s
    case GK => req.goalkeepers
    case DEF => req.defenders
    case MID => req.midfielders
    case FWD => req.forwards
  }

  /** The distinct teams of the table in order of first appearance. */
  function Teams(rows: seq<Player>): (ts: seq<string>)
    ensures forall i, j :: 0 <= i < j < |ts| ==> ts[i] != ts[j]
    ensures forall t :: t in ts <==> exists k :: 0 <= k < |rows| && rows[k].team == t
  {
    if rows == [] then []
    else
      var n := |rows|;
      var prefix := rows[..n - 1];
      var ts := Teams(prefix);
      assert forall k :: 0 <= k < n - 1 ==> prefix[k] == rows[k];
      if rows[n - 1].team in ts then ts else ts + [rows[n - 1].team]
  }

  // ----- coefficient vectors, one coefficient per row -----

  /** 1 on the rows of group `g`, 0 elsewhere. */
  function Indicator(rows: seq<Player>, g: Group): (c: seq<real>)
    ensures |c| == |rows|
  {
    seq(|rows|, k requires 0 <= k < |rows| => if InGroup(rows[k], g) then 1.0 else 0.0)
  }

  function PriceColumn(rows: seq<Player>): (c: seq<real>)
    ensures |c| == |rows|
  {
    seq(|rows|, k requires 0 <= k < |rows| => rows[k].price)
  }

  function PointsColumn(rows: seq<Player>, column: string): (c: seq<real>)
    requires Scored(rows, column)
    ensures |c| == |rows|
  {
    seq(|rows|, k requires 0 <= k < |rows| => rows[k].scores[column])
  }

  /** 1 on variable `k` of `n`, 0 elsewhere. */
  function Unit(n: nat, k: nat): (c: seq<real>)
    ensures |c| == n
  {
    seq(n, i => if i == k then 1.0 else 0.0)
  }

  // ----- the constraints, in the order `optimize` adds them -----

  function BudgetConstraint(rows: seq<Player>, req: Request): Constraint
  {
    Constraint(PriceColumn(rows), Le, req.budget)
  }

  function RosterConstraint(rows: seq<Player>, req: Request): Constraint
  {
    Constraint(Indicator(rows, Everyone), Eq, RosterSize(req) as real)
  }

  function Ceiling(rows: seq<Player>, g: Group, cap: int): Constraint
  {
    Constraint(Indicator(rows, g), Le, cap as real)
  }

  /** The four global position ceilings, GK, DEF, MID, FWD. */
  function PositionCeilings(rows: seq<Player>, req: Request): seq<Constraint>
  {
    [ Ceiling(rows, Position(Tag(GK)), Target(req, GK)),
      Ceiling(rows, Position(Tag(DEF)), Target(req, DEF)),
      Ceiling(rows, Position(Tag(MID)), Target(req, MID)),
      Ceiling(rows, Position(Tag(FWD)), Target(req, FWD)) ]
  }

  /** The four per-position caps of one team, GK, DEF, MID, FWD, each
      resolved with its default. */
  function TeamSlotConstraints(rows: seq<Player>, req: Request, team: string): seq<Constraint>
  {
    var pr := req.positionRestrictions;
    [ Ceiling(rows, TeamPosition(team, Tag(GK)), PositionCap(pr, team, GK)),
      Ceiling(rows, TeamPosition(team, Tag(DEF)), PositionCap(pr, team, DEF)),
      Ceiling(rows, TeamPosition(team, Tag(MID)), PositionCap(pr, team, MID)),
      Ceiling(rows, TeamPosition(team, Tag(FWD)), PositionCap(pr, team, FWD)) ]
  }

  /** The five constraints for one team: its total cap, then its position caps. */
  function TeamConstraints(rows: seq<Player>, req: Request, team: string): seq<Constraint>
  {
    [Ceiling(rows, Team(team), TeamCap(req.teamRestrictions, team))] + TeamSlotConstraints(rows, req, team)
  }

  function PerTeamConstraints(rows: seq<Player>, req: Request, teams: seq<string>): (cs: seq<Constraint>)
    ensures |cs| == 5 * |teams|
    ensures forall i :: 0 <= i < |cs| ==> |cs[i].coeffs| == |rows|
  {
    if teams == [] then []
    else TeamConstraints(rows, req, teams[0]) + PerTeamConstraints(rows, req, teams[1..])
  }

  /** Row `k` is fixed to 1 when its (team, name) is forced, otherwise to 0
      when it is banned, otherwise left free. */
  function Fixing(rows: seq<Player>, req: Request, k: nat): seq<Constraint>
    requires k < |rows|
  {
    var key := Key(rows[k]);
    if key in req.selection then [Constraint(Unit(|rows|, k), Eq, 1.0)]
    else if key in req.banned then [Constraint(Unit(|rows|, k), Eq, 0.0)]
    else []
  }

  /** The fixing constraints of rows `from` onwards, in table order. */
  function Fixings(rows: seq<Player>, req: Request, from: nat): (cs: seq<Constraint>)
    requires from <= |rows|
    ensures |cs| <= |rows| - from
    ensures forall i :: 0 <= i < |cs| ==> |cs[i].coeffs| == |rows|
    decreases |rows| - from
  {
    if from == |rows| then []
    else Fixing(rows, req, from) + Fixings(rows, req, from + 1)
  }

  /** Every constraint of the model, in the order `optimize` adds them. */
  function BuildConstraints(rows: seq<Player>, req: Request): (cs: seq<Constraint>)
    ensures forall i :: 0 <= i < |cs| ==> |cs[i].coeffs| == |rows|
    ensures 6 + 5 * |Teams(rows)| <= |cs| <= 6 + 5 * |Teams(rows)| + |rows|
  {
    [BudgetConstraint(rows, req), RosterConstraint(rows, req)]
      + PositionCeilings(rows, req)
      + PerTeamConstraints(rows, req, Teams(rows))
      + Fixings(rows, req, 0)
  }

  /** The integer program for a table and request; looking up a missing score
      column fails as the data frame lookup does. */
  function Model(t: Table, req: Request): (r: Result<Program, Error>)
    requires Rectangular(t)
    ensures r.Failure? <==> req.column !in t.columns
    ensures r.Failure? ==> r.error == UnknownColumn(req.column)
    ensures r.Success? ==> WellFormed(r.value) && |r.value.objective| == |t.rows|
  {
    if req.column !in t.columns then Failure(UnknownColumn(req.column))
    else
      assert Scored(t.rows, req.column);
      Success(Program(PointsColumn(t.rows, req.column), BuildConstraints(t.rows, req)))
  }

  // ----- the squad rules in plain words -----

  /** The team total cap and the four per-position caps of `team`. */
  predicate WithinTeamCaps(squad: seq<Player>, req: Request, team: string)
  {
    && Count(squad, Team(team)) <= TeamCap(req.teamRestrictions, team)
    && forall s: Slot ::
         Count(squad, TeamPosition(team, Tag(s))) <= PositionCap(req.positionRestrictions, team, s)
  }

  /** Forced rows are chosen; banned rows that are not also forced are not. */
  predicate RespectsFixing(rows: seq<Player>, req: Request, sel: seq<bool>, k: nat)
    requires |sel| == |rows| && k < |rows|
  {
    && (Key(rows[k]) in req.selection ==> sel[k])
    && (Key(rows[k]) !in req.selection && Key(rows[k]) in req.banned ==> !sel[k])
  }

  /** A valid squad: exactly the roster size, within budget, within every
      global position target, within every cap of every team in the table,
      and consistent with the forced and banned lists. */
  predicate ValidSquad(rows: seq<Player>, req: Request, sel: seq<bool>)
    requires |sel| == |rows|
  {
    var squad := Pick(rows, sel);
    && |squad| == RosterSize(req)
    && Price(squad) <= req.budget
    && (forall s: Slot :: Count(squad, Position(Tag(s))) <= Target(req, s))
    && (forall k :: 0 <= k < |rows| ==> WithinTeamCaps(squad, req, rows[k].team))
    && (forall k :: 0 <= k < |rows| ==> RespectsFixing(rows, req, sel, k))
  }
}
