/** The generated constraints say exactly what the squad rules say. */
module Encoding {
  import opened Players
  import opened Restrictions
  import opened LinearProgram
  import opened Formulation

  /** The linear form of a group counts the chosen rows in that group. */
  lemma {:induction false} DotIndicator(rows: seq<Player>, g: Group, sel: seq<bool>)
    requires |sel| == |rows|
    ensures Dot(Indicator(rows, g), sel) == Count(Pick(rows, sel), g) as real
  {
    if rows != [] {
      DotIndicator(rows[1..], g, sel[1..]);
      assert Indicator(rows, g)[1..] == Indicator(rows[1..], g);
      var rest := Pick(rows[1..], sel[1..]);
      if sel[0] {
        assert ([rows[0]] + rest)[1..] == rest;
      } else {
        assert [] + rest == rest;
      }
    }
  }

  /** The price form sums the prices of the chosen rows. */
  lemma {:induction false} DotPrice(rows: seq<Player>, sel: seq<bool>)
    requires |sel| == |rows|
    ensures Dot(PriceColumn(rows), sel) == Price(Pick(rows, sel))
  {
    if rows != [] {
      DotPrice(rows[1..], sel[1..]);
      assert PriceColumn(rows)[1..] == PriceColumn(rows[1..]);
      var rest := Pick(rows[1..], sel[1..]);
      if sel[0] {
        assert ([rows[0]] + rest)[1..] == rest;
      } else {
        assert [] + rest == rest;
      }
    }
  }

  /** The objective sums the chosen rows' points in the optimised column. */
  lemma {:induction false} DotPoints(rows: seq<Player>, column: string, sel: seq<bool>)
    requires |sel| == |rows|
    requires Scored(rows, column)
    ensures Scored(Pick(rows, sel), column)
    ensures Dot(PointsColumn(rows, column), sel) == Points(Pick(rows, sel), column)
  {
    PickScored(rows, sel, column);
    if rows != [] {
      DotPoints(rows[1..], column, sel[1..]);
      assert PointsColumn(rows, column)[1..] == PointsColumn(rows[1..], column);
      var rest := Pick(rows[1..], sel[1..]);
      if sel[0] {
        assert ([rows[0]] + rest)[1..] == rest;
      } else {
        assert [] + rest == rest;
      }
    }
  }

  /** A unit form reads off one decision. */
  lemma {:induction false} DotUnit(n: nat, k: nat, sel: seq<bool>)
    requires k < n == |sel|
    ensures Dot(Unit(n, k), sel) == if sel[k] then 1.0 else 0.0
    decreases k
  {
    // Unit(n, k) with its first entry dropped is Unit(n - 1, k - 1).
    if k == 0 {
      DotZero(Unit(n, k)[1..], sel[1..]);
    } else {
      assert Unit(n, k)[1..] == Unit(n - 1, k - 1);
      DotUnit(n - 1, k - 1, sel[1..]);
    }
  }

  lemma {:induction false} DotZero(c: seq<real>, x: seq<bool>)
    requires forall i :: 0 <= i < |c| ==> c[i] == 0.0
    ensures Dot(c, x) == 0.0
  {
    if c != [] && x != [] {
      DotZero(c[1..], x[1..]);
    }
  }

  /** Line by line: each group of constraints holds exactly when its rule does. */

  lemma {:induction false} BudgetRule(rows: seq<Player>, req: Request, sel: seq<bool>)
    requires |sel| == |rows|
    ensures Holds(BudgetConstraint(rows, req), sel) <==> Price(Pick(rows, sel)) <= req.budget
  {
    DotPrice(rows, sel);
  }

  lemma {:induction false} RosterRule(rows: seq<Player>, req: Request, sel: seq<bool>)
    requires |sel| == |rows|
    ensures Holds(RosterConstraint(rows, req), sel) <==> |Pick(rows, sel)| == RosterSize(req)
  {
    DotIndicator(rows, Everyone, sel);
    PickSize(rows, sel);
  }

  lemma {:induction false} CeilingRule(rows: seq<Player>, g: Group, cap: int, sel: seq<bool>)
    requires |sel| == |rows|
    ensures Holds(Ceiling(rows, g, cap), sel) <==> Count(Pick(rows, sel), g) <= cap
  {
    DotIndicator(rows, g, sel);
  }

  /** Four list entries hold exactly when each does. */
  lemma SatisfiesFour(a: Constraint, b: Constraint, c: Constraint, d: Constraint, x: seq<bool>)
    ensures Satisfies([a, b, c, d], x) <==> Holds(a, x) && Holds(b, x) && Holds(c, x) && Holds(d, x)
  {
    var cs := [a, b, c, d];
    if Holds(a, x) && Holds(b, x) && Holds(c, x) && Holds(d, x) {
      forall i | 0 <= i < 4
        ensures Holds(cs[i], x)
      {
      }
    }
    if Satisfies(cs, x) {
      assert Holds(cs[0], x) && Holds(cs[1], x) && Holds(cs[2], x) && Holds(cs[3], x);
    }
  }

  lemma {:induction false} PositionRule(rows: seq<Player>, req: Request, sel: seq<bool>)
    requires |sel| == |rows|
    ensures Satisfies(PositionCeilings(rows, req), sel)
        <==> forall s: Slot :: Count(Pick(rows, sel), Position(Tag(s))) <= Target(req, s)
  {
    CeilingRule(rows, Position(Tag(GK)), Target(req, GK), sel);
    CeilingRule(rows, Position(Tag(DEF)), Target(req, DEF), sel);
    CeilingRule(rows, Position(Tag(MID)), Target(req, MID), sel);
    CeilingRule(rows, Position(Tag(FWD)), Target(req, FWD), sel);
    var four := PositionCeilings(rows, req);
    SatisfiesFour(four[0], four[1], four[2], four[3], sel);
  }

  lemma {:induction false} TeamSlotRule(rows: seq<Player>, req: Request, team: string, sel: seq<bool>)
    requires |sel| == |rows|
    ensures Satisfies(TeamSlotConstraints(rows, req, team), sel)
        <==> forall s: Slot ::
               Count(Pick(rows, sel), TeamPosition(team, Tag(s))) <= PositionCap(req.positionRestrictions, team, s)
  {
    var pr := req.positionRestrictions;
    CeilingRule(rows, TeamPosition(team, Tag(GK)), PositionCap(pr, team, GK), sel);
    CeilingRule(rows, TeamPosition(team, Tag(DEF)), PositionCap(pr, team, DEF), sel);
    CeilingRule(rows, TeamPosition(team, Tag(MID)), PositionCap(pr, team, MID), sel);
    CeilingRule(rows, TeamPosition(team, Tag(FWD)), PositionCap(pr, team, FWD), sel);
    var four := TeamSlotConstraints(rows, req, team);
    SatisfiesFour(four[0], four[1], four[2], four[3], sel);
  }

  lemma {:induction false} TeamRule(rows: seq<Player>, req: Request, team: string, sel: seq<bool>)
    requires |sel| == |rows|
    ensures Satisfies(TeamConstraints(rows, req, team), sel) <==> WithinTeamCaps(Pick(rows, sel), req, team)
  {
    var cap := TeamCap(req.teamRestrictions, team);
    var total := Ceiling(rows, Team(team), cap);
    var four := TeamSlotConstraints(rows, req, team);
    var squad := Pick(rows, sel);
    SatisfiesAppend([total], four, sel);
    assert Satisfies([total], sel) <==> Count(squad, Team(team)) <= cap by {
      SatisfiesOne(total, sel);
      CeilingRule(rows, Team(team), cap, sel);
    }
    TeamSlotRule(rows, req, team, sel);

  }

  lemma {:induction false} PerTeamRule(rows: seq<Player>, req: Request, teams: seq<string>, sel: seq<bool>)
    requires |sel| == |rows|
    ensures Satisfies(PerTeamConstraints(rows, req, teams), sel)
        <==> forall t :: t in teams ==> WithinTeamCaps(Pick(rows, sel), req, t)
  {
    if teams != [] {
      SatisfiesAppend(TeamConstraints(rows, req, teams[0]), PerTeamConstraints(rows, req, teams[1..]), sel);
      TeamRule(rows, req, teams[0], sel);
      PerTeamRule(rows, req, teams[1..], sel);
      assert forall t :: t in teams <==> t == teams[0] || t in teams[1..];
    }
  }

  lemma {:induction false} FixingRule(rows: seq<Player>, req: Request, k: nat, sel: seq<bool>)
    requires |sel| == |rows| && k < |rows|
    ensures Satisfies(Fixing(rows, req, k), sel) <==> RespectsFixing(rows, req, sel, k)
  {
    DotUnit(|rows|, k, sel);
    var cs := Fixing(rows, req, k);
    if cs != [] {
      assert cs == [cs[0]];
      SatisfiesOne(cs[0], sel);
    }
  }

  lemma {:induction false} FixingsRule(rows: seq<Player>, req: Request, from: nat, sel: seq<bool>)
    requires |sel| == |rows| && from <= |rows|
    ensures Satisfies(Fixings(rows, req, from), sel)
        <==> forall k :: from <= k < |rows| ==> RespectsFixing(rows, req, sel, k)
    decreases |rows| - from
  {
    if from < |rows| {
      SatisfiesAppend(Fixing(rows, req, from), Fixings(rows, req, from + 1), sel);
      FixingRule(rows, req, from, sel);
      FixingsRule(rows, req, from + 1, sel);
    }
  }

  /** Main theorem: a 0/1 selection satisfies every generated constraint
      exactly when it is a valid squad. */
  lemma {:induction false} ConstraintsMatchRules(rows: seq<Player>, req: Request, sel: seq<bool>)
    requires |sel| == |rows|
    ensures Satisfies(BuildConstraints(rows, req), sel) <==> ValidSquad(rows, req, sel)
  {
    var head := [BudgetConstraint(rows, req), RosterConstraint(rows, req)];
    var ceilings := PositionCeilings(rows, req);
    var teams := PerTeamConstraints(rows, req, Teams(rows));
    var fixings := Fixings(rows, req, 0);
    SatisfiesAppend(head + ceilings + teams, fixings, sel);
    SatisfiesAppend(head + ceilings, teams, sel);
    SatisfiesAppend(head, ceilings, sel);
    assert Satisfies(head, sel) <==> Holds(head[0], sel) && Holds(head[1], sel);
    BudgetRule(rows, req, sel);
    RosterRule(rows, req, sel);
    PositionRule(rows, req, sel);
    PerTeamRule(rows, req, Teams(rows), sel);
    FixingsRule(rows, req, 0, sel);
    var squad := Pick(rows, sel);
    assert (forall t :: t in Teams(rows) ==> WithinTeamCaps(squad, req, t))
       <==> (forall k :: 0 <= k < |rows| ==> WithinTeamCaps(squad, req, rows[k].team));
  }

  /** The model's feasible points are exactly the valid squads, and its
      objective at a point is the chosen squad's points. */
  lemma {:induction false} ModelMatchesRules(t: Table, req: Request, sel: seq<bool>)
    requires Rectangular(t) && req.column in t.columns
    ensures Feasible(Model(t, req).value, sel) <==> |sel| == |t.rows| && ValidSquad(t.rows, req, sel)
    ensures |sel| == |t.rows| ==>
              && Scored(Pick(t.rows, sel), req.column)
              && Value(Model(t, req).value, sel) == Points(Pick(t.rows, sel), req.column)
  {
    if |sel| == |t.rows| {
      ConstraintsMatchRules(t.rows, req, sel);
      assert Scored(t.rows, req.column);
      DotPoints(t.rows, req.column, sel);
    }
  }

  /** An optimal answer from an engine that keeps its contract is a valid
      squad with at least the points of valid squad `y`. */
  lemma {:induction false} OptimalAnswerBeats(t: Table, req: Request, reply: Reply, y: seq<bool>)
    requires Rectangular(t) && req.column in t.columns
    requires SolverContract(Model(t, req).value, reply) && reply.status == Optimal
    requires |y| == |t.rows| && ValidSquad(t.rows, req, y)
    ensures |reply.values| == |t.rows|
    ensures ValidSquad(t.rows, req, Decisions(reply.values))
    ensures Scored(Pick(t.rows, Decisions(reply.values)), req.column)
    ensures Scored(Pick(t.rows, y), req.column)
    ensures Points(Pick(t.rows, y), req.column) <= Points(Pick(t.rows, Decisions(reply.values)), req.column)
  {
    var p := Model(t, req).value;
    var x := Decisions(reply.values);
    ModelMatchesRules(t, req, x);
    ModelMatchesRules(t, req, y);
    assert Feasible(p, y);
    assert Value(p, y) <= Value(p, x);
  }

  /** An optimal answer from an engine that keeps its contract is a valid
      squad, and no valid squad has more points. */
  lemma {:induction false} OptimalAnswerIsBestSquad(t: Table, req: Request, reply: Reply)
    requires Rectangular(t) && req.column in t.columns
    requires SolverContract(Model(t, req).value, reply) && reply.status == Optimal
    ensures |reply.values| == |t.rows|
    ensures ValidSquad(t.rows, req, Decisions(reply.values))
    ensures Scored(Pick(t.rows, Decisions(reply.values)), req.column)
    ensures forall y :: |y| == |t.rows| && ValidSquad(t.rows, req, y) ==>
              && Scored(Pick(t.rows, y), req.column)
              && Points(Pick(t.rows, y), req.column) <= Points(Pick(t.rows, Decisions(reply.values)), req.column)
  {
    ModelMatchesRules(t, req, Decisions(reply.values));
    forall y | |y| == |t.rows| && ValidSquad(t.rows, req, y)
      ensures Scored(Pick(t.rows, y), req.column)
      ensures Points(Pick(t.rows, y), req.column) <= Points(Pick(t.rows, Decisions(reply.values)), req.column)
    {
      OptimalAnswerBeats(t, req, reply, y);
    }
  }

  /** An infeasible verdict from an engine that keeps its contract rules
      out every selection as a valid squad. */
  lemma {:induction false} InfeasibleAnswerMeansNoSquad(t: Table, req: Request, reply: Reply, y: seq<bool>)
    requires Rectangular(t) && req.column in t.columns
    requires SolverContract(Model(t, req).value, reply) && reply.status == Infeasible
    requires |y| == |t.rows|
    ensures !ValidSquad(t.rows, req, y)
  {
    ModelMatchesRules(t, req, y);
  }

  /** The fixing constraints depend only on the forced and banned lists. */
  lemma {:induction false} FixingsIgnoreCaps(rows: seq<Player>, req: Request, req': Request, from: nat)
    requires from <= |rows|
    requires req.selection == req'.selection && req.banned == req'.banned
    ensures Fixings(rows, req, from) == Fixings(rows, req', from)
    decreases |rows| - from
  {
    if from < |rows| {
      FixingsIgnoreCaps(rows, req, req', from + 1);
    }
  }

  /** Two requests resolve the same five caps for `team`. */
  predicate SameCaps(req: Request, req': Request, team: string)
  {
    && TeamCap(req.teamRestrictions, team) == TeamCap(req'.teamRestrictions, team)
    && PositionCap(req.positionRestrictions, team, GK) == PositionCap(req'.positionRestrictions, team, GK)
    && PositionCap(req.positionRestrictions, team, DEF) == PositionCap(req'.positionRestrictions, team, DEF)
    && PositionCap(req.positionRestrictions, team, MID) == PositionCap(req'.positionRestrictions, team, MID)
    && PositionCap(req.positionRestrictions, team, FWD) == PositionCap(req'.positionRestrictions, team, FWD)
  }

  /** The per-team constraints of `teams` depend only on those teams' caps. */
  lemma {:induction false} PerTeamSameCaps(rows: seq<Player>, req: Request, req': Request, teams: seq<string>)
    requires forall i :: 0 <= i < |teams| ==> SameCaps(req, req', teams[i])
    ensures PerTeamConstraints(rows, req, teams) == PerTeamConstraints(rows, req', teams)
  {
    if teams != [] {
      assert SameCaps(req, req', teams[0]);
      assert forall i :: 0 <= i < |teams| - 1 ==> teams[1..][i] == teams[i + 1];
      PerTeamSameCaps(rows, req, req', teams[1..]);
    }
  }

  /** Budget, roster and position ceilings ignore the restriction lists. */
  lemma SameHead(rows: seq<Player>, req: Request, req': Request)
    requires req' == req.(teamRestrictions := req'.teamRestrictions, positionRestrictions := req'.positionRestrictions)
    ensures BudgetConstraint(rows, req) == BudgetConstraint(rows, req')
    ensures RosterConstraint(rows, req) == RosterConstraint(rows, req')
    ensures PositionCeilings(rows, req) == PositionCeilings(rows, req')
  {
  }

  /** A team cap entry for a team with no row in the table changes nothing. */
  lemma {:induction false} AbsentTeamEntryIgnored(rows: seq<Player>, req: Request, e: (string, int))
    requires forall k :: 0 <= k < |rows| ==> rows[k].team != e.0
    ensures BuildConstraints(rows, req.(teamRestrictions := req.teamRestrictions + [e]))
         == BuildConstraints(rows, req)
  {
    var req' := req.(teamRestrictions := req.teamRestrictions + [e]);
    var teams := Teams(rows);
    forall i | 0 <= i < |teams|
      ensures SameCaps(req', req, teams[i])
    {
      assert teams[i] in teams;
      TeamCapAppendOther(req.teamRestrictions, e, teams[i]);
    }
    PerTeamSameCaps(rows, req', req, teams);
    FixingsIgnoreCaps(rows, req', req, 0);
    SameHead(rows, req', req);
  }

  /** A position override for a team with no row in the table changes nothing. */
  lemma {:induction false} AbsentPositionEntryIgnored(rows: seq<Player>, req: Request, e: PositionOverride)
    requires forall k :: 0 <= k < |rows| ==> rows[k].team != e.team
    ensures BuildConstraints(rows, req.(positionRestrictions := req.positionRestrictions + [e]))
         == BuildConstraints(rows, req)
  {
    var req' := req.(positionRestrictions := req.positionRestrictions + [e]);
    var teams := Teams(rows);
    forall i | 0 <= i < |teams|
      ensures SameCaps(req', req, teams[i])
    {
      var t := teams[i];
      assert t in teams;
      PositionCapAppendOther(req.positionRestrictions, e, t, GK);
      PositionCapAppendOther(req.positionRestrictions, e, t, DEF);
      PositionCapAppendOther(req.positionRestrictions, e, t, MID);
      PositionCapAppendOther(req.positionRestrictions, e, t, FWD);
    }
    PerTeamSameCaps(rows, req', req, teams);
    FixingsIgnoreCaps(rows, req', req, 0);
    SameHead(rows, req', req);
  }
}
