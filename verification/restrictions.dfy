/** Per-team restriction tables and their lookup with defaults. */
module Restrictions {
  import opened Players

  /** Cap on the number of players from one team when the team has no entry. */
  const DefaultTeamCap: int := 2

  /** Cap on each position within one team when the team has no entry. */
  const DefaultPositionCap: int := 1

  /** One `(team, gk, def, mid, fwd)` entry of the position restriction list. */
  datatype PositionOverride = PositionOverride(team: string, gk: int, def: int, mid: int, fwd: int)

  function CapFor(o: PositionOverride, s: Slot): int
  {
    match s
    case GK => o.gk
    case DEF => o.def
    case MID => o.mid
    case FWD => o.fwd
  }

  /** The dictionary built from the `(team, cap)` list entry by entry: a later
      entry for a team overwrites an earlier one. */
  function TeamCapTable(entries: seq<(string, int)>): (m: map<string, int>)
    ensures forall e :: e in entries ==> e.0 in m
  {
    if entries == [] then map[]
    else
      var last := entries[|entries| - 1];
      TeamCapTable(entries[..|entries| - 1])[last.0 := last.1]
  }

  /** The dictionary built from the position override list, one whole
      override per team, a later entry replacing an earlier one. */
  function PositionCapTable(entries: seq<PositionOverride>): (m: map<string, PositionOverride>)
    ensures forall e :: e in entries ==> e.team in m
  {
    if entries == [] then map[]
    else
      var last := entries[|entries| - 1];
      PositionCapTable(entries[..|entries| - 1])[last.team := last]
  }

  /** `tr.get(team, 2)`. */
  function TeamCap(entries: seq<(string, int)>, team: string): int
  {
    var m := TeamCapTable(entries);
    if team in m then m[team] else DefaultTeamCap
  }

  /** `pr.get(team, {}).get(slot, 1)`: an override always holds all four caps. */
  function PositionCap(entries: seq<PositionOverride>, team: string, s: Slot): int
  {
    var m := PositionCapTable(entries);
    if team in m then CapFor(m[team], s) else DefaultPositionCap
  }

  /** A team with no entry gets the default cap of 2. */
  lemma {:induction false} TeamCapDefault(entries: seq<(string, int)>, team: string)
    requires forall e :: e in entries ==> e.0 != team
    ensures team !in TeamCapTable(entries)
    ensures TeamCap(entries, team) == DefaultTeamCap
  {
    if entries != [] {
      TeamCapDefault(entries[..|entries| - 1], team);
    }
  }

  /** The last entry naming a team decides its cap. */
  lemma {:induction false} TeamCapLastWins(entries: seq<(string, int)>, team: string, j: nat)
    requires j < |entries| && entries[j].0 == team
    requires forall i :: j < i < |entries| ==> entries[i].0 != team
    ensures TeamCap(entries, team) == entries[j].1
  {
    var n := |entries|;
    if j < n - 1 {
      var prefix := entries[..n - 1];
      assert forall i :: j < i < |prefix| ==> prefix[i] == entries[i];
      TeamCapLastWins(prefix, team, j);
    }
  }

  /** A team with no override keeps the default cap of 1 on every position. */
  lemma {:induction false} PositionCapDefault(entries: seq<PositionOverride>, team: string, s: Slot)
    requires forall e :: e in entries ==> e.team != team
    ensures team !in PositionCapTable(entries)
    ensures PositionCap(entries, team, s) == DefaultPositionCap
  {
    if entries != [] {
      PositionCapDefault(entries[..|entries| - 1], team, s);
    }
  }

  /** The last override naming a team replaces all four of its caps. */
  lemma {:induction false} PositionCapLastWins(entries: seq<PositionOverride>, team: string, j: nat)
    requires j < |entries| && entries[j].team == team
    requires forall i :: j < i < |entries| ==> entries[i].team != team
    ensures forall s :: PositionCap(entries, team, s) == CapFor(entries[j], s)
  {
    var n := |entries|;
    if j < n - 1 {
      var prefix := entries[..n - 1];
      assert forall i :: j < i < |prefix| ==> prefix[i] == entries[i];
      PositionCapLastWins(prefix, team, j);
    }
  }

  /** Appending an entry for another team leaves a team's cap alone. */
  lemma TeamCapAppendOther(entries: seq<(string, int)>, e: (string, int), team: string)
    requires e.0 != team
    ensures TeamCap(entries + [e], team) == TeamCap(entries, team)
  {
    assert (entries + [e])[..|entries|] == entries;
  }

  /** Appending an override for another team leaves a team's caps alone. */
  lemma PositionCapAppendOther(entries: seq<PositionOverride>, e: PositionOverride, team: string, s: Slot)
    requires e.team != team
    ensures PositionCap(entries + [e], team, s) == PositionCap(entries, team, s)
  {
    assert (entries + [e])[..|entries|] == entries;
  }
}
