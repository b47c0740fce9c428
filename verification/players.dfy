/** The player table handed to the optimiser and counting over a squad. */
module Players {

  /** One row of the data frame: the `player`, `team`, `position` and `price`
      columns plus one expected-points value per score column (`gw1`, ...,
      `gw_first_3`, `gw_all`). Prices and points are exact rationals. */
  datatype Player = Player(
    name: string,
    team: string,
    position: string,
    price: real,
    scores: map<string, real>)

  /** The (team, name) pair that the forced and banned lists match rows by. */
  function Key(p: Player): (string, string)
  {
    (p.team, p.name)
  }

  /** A data frame: its score columns and its rows in table order. */
  datatype Table = Table(columns: set<string>, rows: seq<Player>)

  /** A data frame is rectangular: every row has a value in every score column. */
  predicate Rectangular(t: Table)
  {
    forall k :: 0 <= k < |t.rows| ==> t.rows[k].scores.Keys == t.columns
  }

  /** Every row carries a value for score column `column`. */
  predicate Scored(rows: seq<Player>, column: string)
  {
    forall k :: 0 <= k < |rows| ==> column in rows[k].scores
  }

  /** The four position tags the optimiser constrains. A row whose position
      string is none of these counts only towards the roster and team totals. */
  datatype Slot = GK | DEF | MID | FWD

  function Tag(s: Slot): string
  {
    match s
    case GK => "GK"
    case DEF => "DEF"
    case MID => "MID"
    case FWD => "FWD"
  }

  /** The sets of rows that a constraint counts. */
  datatype Group =
    | Everyone
    | Position(tag: string)
    | Team(team: string)
    | TeamPosition(team: string, tag: string)

  predicate InGroup(p: Player, g: Group)
  {
    match g
    case Everyone => true
    case Position(tag) => p.position == tag
    case Team(team) => p.team == team
    case TeamPosition(team, tag) => p.team == team && p.position == tag
  }

  /** Number of players of `squad` in group `g`. */
  function Count(squad: seq<Player>, g: Group): (n: nat)
    ensures n <= |squad|
  {
    if squad == [] then 0
    else (if InGroup(squad[0], g) then 1 else 0) + Count(squad[1..], g)
  }

  /** Summed price of a squad. */
  function Price(squad: seq<Player>): real
  {
    if squad == [] then 0.0 else squad[0].price + Price(squad[1..])
  }

  /** Summed expected points of a squad in score column `column`. */
  function Points(squad: seq<Player>, column: string): real
    requires Scored(squad, column)
  {
    if squad == [] then 0.0 else squad[0].scores[column] + Points(squad[1..], column)
  }

  /** The rows whose decision is true, in table order. */
  function Pick(rows: seq<Player>, sel: seq<bool>): (squad: seq<Player>)
    requires |sel| == |rows|
    ensures |squad| <= |rows|
  {
    if rows == [] then []
    else (if sel[0] then [rows[0]] else []) + Pick(rows[1..], sel[1..])
  }

  /** Picking from row `k` onwards: row `k` if chosen, then the rest. */
  lemma PickFrom(rows: seq<Player>, sel: seq<bool>, k: nat)
    requires |sel| == |rows| && k < |rows|
    ensures Pick(rows[k..], sel[k..]) == (if sel[k] then [rows[k]] else []) + Pick(rows[k + 1..], sel[k + 1..])
  {
    var r, s := rows[k..], sel[k..];
    assert r[0] == rows[k] && s[0] == sel[k];
    assert r[1..] == rows[k + 1..] && s[1..] == sel[k + 1..];
  }

  /** One more row read: what is picked so far grows by row `k` if it is chosen. */
  lemma PickStep(rows: seq<Player>, sel: seq<bool>, k: nat, sofar: seq<Player>)
    requires |sel| == |rows| && k < |rows|
    requires sofar + Pick(rows[k..], sel[k..]) == Pick(rows, sel)
    ensures (if sel[k] then sofar + [rows[k]] else sofar) + Pick(rows[k + 1..], sel[k + 1..]) == Pick(rows, sel)
  {
    PickFrom(rows, sel, k);
    var rest := Pick(rows[k + 1..], sel[k + 1..]);
    if sel[k] {
      assert sofar + ([rows[k]] + rest) == (sofar + [rows[k]]) + rest;
    } else {
      assert [] + rest == rest;
    }
  }

  /** Number of true decisions. */
  function Chosen(sel: seq<bool>): (n: nat)
    ensures n <= |sel|
  {
    if sel == [] then 0 else (if sel[0] then 1 else 0) + Chosen(sel[1..])
  }

  /** The squad holds exactly one entry per true decision. */
  lemma {:induction false} PickSize(rows: seq<Player>, sel: seq<bool>)
    requires |sel| == |rows|
    ensures |Pick(rows, sel)| == Chosen(sel)
    ensures Count(Pick(rows, sel), Everyone) == Chosen(sel)
  {
    if rows != [] {
      PickSize(rows[1..], sel[1..]);
      var rest := Pick(rows[1..], sel[1..]);
      if sel[0] {
        assert ([rows[0]] + rest)[1..] == rest;
      } else {
        assert [] + rest == rest;
      }
    }
  }

  /** Choosing as many rows as there are decisions chooses every row. */
  lemma {:induction false} AllChosen(sel: seq<bool>)
    requires Chosen(sel) == |sel|
    ensures forall k :: 0 <= k < |sel| ==> sel[k]
  {
    if sel != [] {
      AllChosen(sel[1..]);
      forall k | 1 <= k < |sel|
        ensures sel[k]
      {
        assert sel[1..][k - 1] == sel[k];
      }
    }
  }

  /** A player is in the squad exactly when some row holding it was chosen. */
  lemma {:induction false} PickMembers(rows: seq<Player>, sel: seq<bool>, p: Player)
    requires |sel| == |rows|
    ensures p in Pick(rows, sel) <==> exists k :: 0 <= k < |rows| && sel[k] && rows[k] == p
  {
    if rows != [] {
      PickMembers(rows[1..], sel[1..], p);
      var rest := Pick(rows[1..], sel[1..]);
      assert Pick(rows, sel) == (if sel[0] then [rows[0]] else []) + rest;
      if exists k :: 0 <= k < |rows| && sel[k] && rows[k] == p {
        var k :| 0 <= k < |rows| && sel[k] && rows[k] == p;
        if k > 0 {
          assert sel[1..][k - 1] && rows[1..][k - 1] == p;
        }
      }
      if p in rest {
        var k :| 0 <= k < |rows[1..]| && sel[1..][k] && rows[1..][k] == p;
        assert sel[k + 1] && rows[k + 1] == p;
      }
    }
  }

  /** The rows every squad member comes from carry the score column too. */
  lemma {:induction false} PickScored(rows: seq<Player>, sel: seq<bool>, column: string)
    requires |sel| == |rows|
    requires Scored(rows, column)
    ensures Scored(Pick(rows, sel), column)
  {
    var squad := Pick(rows, sel);
    forall j | 0 <= j < |squad|
      ensures column in squad[j].scores
    {
      PickMembers(rows, sel, squad[j]);
    }
  }
}
