/** The forced (team, name) pairs alone can make a request infeasible: every
    valid squad contains every forced row, so forced rows that exceed the
    budget, the roster size, a position target or a team cap leave no valid
    squad at all. */
module ForcedRows {
  import opened Players
  import opened Restrictions
  import opened Formulation

  /** The decision that takes exactly the forced rows. */
  function ForcedSelection(rows: seq<Player>, req: Request): (f: seq<bool>)
    ensures |f| == |rows|
  {
    seq(|rows|, k requires 0 <= k < |rows| => Key(rows[k]) in req.selection)
  }

  /** The forced rows, in table order. */
  function Forced(rows: seq<Player>, req: Request): seq<Player>
  {
    Pick(rows, ForcedSelection(rows, req))
  }

  /** Every row chosen by `f` is chosen by `sel`. */
  predicate Includes(f: seq<bool>, sel: seq<bool>)
  {
    |f| == |sel| && forall k :: 0 <= k < |f| ==> f[k] ==> sel[k]
  }

  /** A selection respecting every fixing contains every forced row. */
  lemma ForcedIncluded(rows: seq<Player>, req: Request, sel: seq<bool>)
    requires |sel| == |rows|
    ensures (forall k :: 0 <= k < |rows| ==> RespectsFixing(rows, req, sel, k))
            ==> Includes(ForcedSelection(rows, req), sel)
  {
    var f := ForcedSelection(rows, req);
    if forall k :: 0 <= k < |rows| ==> RespectsFixing(rows, req, sel, k) {
      forall k | 0 <= k < |f|
        ensures f[k] ==> sel[k]
      {
        assert RespectsFixing(rows, req, sel, k);
      }
    }
  }

  /** Taking more rows never lowers a group's count. */
  lemma {:induction false} CountGrows(rows: seq<Player>, f: seq<bool>, sel: seq<bool>, g: Group)
    requires |f| == |rows| && |sel| == |rows|
    ensures Includes(f, sel) ==> Count(Pick(rows, f), g) <= Count(Pick(rows, sel), g)
  {
    if rows != [] {
      CountGrows(rows[1..], f[1..], sel[1..], g);
      if Includes(f, sel) {
        assert Includes(f[1..], sel[1..]) by {
          forall k | 0 <= k < |f[1..]|
            ensures f[1..][k] ==> sel[1..][k]
          {
            assert f[1..][k] == f[k + 1] && sel[1..][k] == sel[k + 1];
          }
        }
      }
      var restF, restS := Pick(rows[1..], f[1..]), Pick(rows[1..], sel[1..]);
      if f[0] {
        assert ([rows[0]] + restF)[1..] == restF;
      } else {
        assert [] + restF == restF;
      }
      if sel[0] {
        assert ([rows[0]] + restS)[1..] == restS;
      } else {
        assert [] + restS == restS;
      }
    }
  }

  /** With no negative price, taking more rows never lowers the price. */
  lemma {:induction false} PriceGrows(rows: seq<Player>, f: seq<bool>, sel: seq<bool>)
    requires |f| == |rows| && |sel| == |rows|
    requires forall k :: 0 <= k < |rows| ==> rows[k].price >= 0.0
    ensures Includes(f, sel) ==> Price(Pick(rows, f)) <= Price(Pick(rows, sel))
  {
    if rows != [] {
      assert forall k :: 0 <= k < |rows[1..]| ==> rows[1..][k] == rows[k + 1];
      PriceGrows(rows[1..], f[1..], sel[1..]);
      if Includes(f, sel) {
        assert Includes(f[1..], sel[1..]) by {
          forall k | 0 <= k < |f[1..]|
            ensures f[1..][k] ==> sel[1..][k]
          {
            assert f[1..][k] == f[k + 1] && sel[1..][k] == sel[k + 1];
          }
        }
      }
      var restF, restS := Pick(rows[1..], f[1..]), Pick(rows[1..], sel[1..]);
      if f[0] {
        assert ([rows[0]] + restF)[1..] == restF;
      } else {
        assert [] + restF == restF;
      }
      if sel[0] {
        assert ([rows[0]] + restS)[1..] == restS;
      } else {
        assert [] + restS == restS;
      }
    }
  }

  /** Forced rows of one group: every valid squad has at least this many. */
  lemma {:induction false} ForcedCountBound(rows: seq<Player>, req: Request, sel: seq<bool>, g: Group)
    requires |sel| == |rows| && ValidSquad(rows, req, sel)
    ensures Count(Forced(rows, req), g) <= Count(Pick(rows, sel), g)
  {
    ForcedIncluded(rows, req, sel);
    CountGrows(rows, ForcedSelection(rows, req), sel, g);
  }

  /** More forced rows than the roster size: no valid squad. */
  lemma {:induction false} ForcedOverRoster(rows: seq<Player>, req: Request, sel: seq<bool>)
    requires |sel| == |rows|
    requires |Forced(rows, req)| > RosterSize(req)
    ensures !ValidSquad(rows, req, sel)
  {
    ForcedIncluded(rows, req, sel);
    CountGrows(rows, ForcedSelection(rows, req), sel, Everyone);
    PickSize(rows, ForcedSelection(rows, req));
    PickSize(rows, sel);
  }

  /** More forced rows of one position than its global target: no valid squad. */
  lemma {:induction false} ForcedOverTarget(rows: seq<Player>, req: Request, sel: seq<bool>, s: Slot)
    requires |sel| == |rows|
    requires Count(Forced(rows, req), Position(Tag(s))) > Target(req, s)
    ensures !ValidSquad(rows, req, sel)
  {
    ForcedIncluded(rows, req, sel);
    CountGrows(rows, ForcedSelection(rows, req), sel, Position(Tag(s)));
  }

  /** More forced rows of a team in the table than its team cap: no valid squad. */
  lemma {:induction false} ForcedOverTeamCap(rows: seq<Player>, req: Request, sel: seq<bool>, team: string)
    requires |sel| == |rows|
    requires team in Teams(rows)
    requires Count(Forced(rows, req), Team(team)) > TeamCap(req.teamRestrictions, team)
    ensures !ValidSquad(rows, req, sel)
  {
    var k :| 0 <= k < |rows| && rows[k].team == team;
    ForcedIncluded(rows, req, sel);
    CountGrows(rows, ForcedSelection(rows, req), sel, Team(team));
    assert !WithinTeamCaps(Pick(rows, sel), req, rows[k].team) || !Includes(ForcedSelection(rows, req), sel);
  }

  /** More forced rows of a team in the table at one position than that
      team's position cap: no valid squad. */
  lemma {:induction false} ForcedOverPositionCap(rows: seq<Player>, req: Request, sel: seq<bool>, team: string, s: Slot)
    requires |sel| == |rows|
    requires team in Teams(rows)
    requires Count(Forced(rows, req), TeamPosition(team, Tag(s))) > PositionCap(req.positionRestrictions, team, s)
    ensures !ValidSquad(rows, req, sel)
  {
    var k :| 0 <= k < |rows| && rows[k].team == team;
    ForcedIncluded(rows, req, sel);
    CountGrows(rows, ForcedSelection(rows, req), sel, TeamPosition(team, Tag(s)));
    assert !WithinTeamCaps(Pick(rows, sel), req, rows[k].team) || !Includes(ForcedSelection(rows, req), sel);
  }

  /** With no negative price, forced rows costing more than the budget: no
      valid squad. */
  lemma {:induction false} ForcedOverBudget(rows: seq<Player>, req: Request, sel: seq<bool>)
    requires |sel| == |rows|
    requires forall k :: 0 <= k < |rows| ==> rows[k].price >= 0.0
    requires Price(Forced(rows, req)) > req.budget
    ensures !ValidSquad(rows, req, sel)
  {
    ForcedIncluded(rows, req, sel);
    PriceGrows(rows, ForcedSelection(rows, req), sel);
  }
}
