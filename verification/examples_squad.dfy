/** Worked requests: four players of four different teams, one per position. */
module WorkedExamples {
  import opened Players
  import opened Formulation

  function Catalog(): seq<Player>
  {
    [ Player("Keeper", "T1", "GK", 5.0, map["gw1" := 4.0]),
      Player("Back", "T2", "DEF", 6.0, map["gw1" := 5.0]),
      Player("Mid", "T3", "MID", 7.0, map["gw1" := 6.0]),
      Player("Striker", "T4", "FWD", 8.0, map["gw1" := 7.0]) ]
  }

  function OneOfEach(budget: real): Request
  {
    Request("gw1", budget, 1, 1, 1, 1, [], [], [], [])
  }

  /** When the roster size equals the number of rows, every valid squad
      takes all of them. */
  lemma {:induction false} OnlyFullSquad(rows: seq<Player>, req: Request, sel: seq<bool>)
    requires |sel| == |rows| == RosterSize(req) && ValidSquad(rows, req, sel)
    ensures sel == seq(|rows|, _ => true)
    ensures Pick(rows, sel) == rows
  {
    assert |Pick(rows, sel)| == |rows|;
    PickSize(rows, sel);
    AllChosen(sel);
    TakeAll(rows);
  }

  lemma {:induction false} TakeAll(rows: seq<Player>)
    ensures Pick(rows, seq(|rows|, _ => true)) == rows
  {
    if rows != [] {
      assert seq(|rows|, _ => true)[1..] == seq(|rows| - 1, _ => true);
      TakeAll(rows[1..]);
    }
  }

  /** The full squad costs 26.0 and scores 22.0. */
  lemma FullSquadTotals()
    ensures Price(Catalog()) == 26.0
    ensures Points(Catalog(), "gw1") == 22.0
  {
  }

  /** Budget 30.0: taking all four players is a valid squad. */
  lemma FullSquadValid()
    ensures ValidSquad(Catalog(), OneOfEach(30.0), [true, true, true, true])
  {
    var rows := Catalog();
    var req := OneOfEach(30.0);
    var all := [true, true, true, true];
    TakeAll(rows);
    assert seq(4, _ => true) == all;
    assert Pick(rows, all) == rows;
    FullSquadTotals();
    forall s: Slot
      ensures Count(rows, Position(Tag(s))) <= Target(req, s)
    {
      OnePerPosition(s);
    }
    forall k | 0 <= k < 4
      ensures WithinTeamCaps(rows, req, rows[k].team)
    {
      OnePerTeam(k);
    }
  }

  lemma OnePerPosition(s: Slot)
    ensures Count(Catalog(), Position(Tag(s))) == 1
  {
  }

  lemma OnePerTeam(k: nat)
    requires k < 4
    ensures Count(Catalog(), Team(Catalog()[k].team)) == 1
    ensures forall s: Slot :: Count(Catalog(), TeamPosition(Catalog()[k].team, Tag(s))) <= 1
  {
  }

  /** Budget 10.0: no valid squad, since all four must be taken and they cost 26.0. */
  lemma {:induction false} TightBudgetInfeasible(sel: seq<bool>)
    requires |sel| == 4
    ensures !ValidSquad(Catalog(), OneOfEach(10.0), sel)
  {
    if ValidSquad(Catalog(), OneOfEach(10.0), sel) {
      OnlyFullSquad(Catalog(), OneOfEach(10.0), sel);
      FullSquadTotals();
      assert false;
    }
  }
}
