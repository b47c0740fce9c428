# Fantasy squad optimiser — a verified Dafny model

This project models `optimize` from `helpers.py` of FantasyTeamSelection. The
function picks a fantasy-football squad from a table of players, where each row
has a name, team, position, price and expected points per gameweek column. It
turns the table and the caller's restriction lists into one 0/1 integer program:

- one decision per row;
- maximise the points of the chosen score column `of`;
- total price at most `budget`;
- squad size exactly `goalkeepers + defenders + midfielders + forwards`;
- four global position ceilings;
- per-team total caps, default 2, and per-team-per-position caps, default 1;
- forced and banned `(team, name)` pairs fixed to 1 and 0.

It then hands the program to PuLP and returns the rows whose value is 1.

Modules, one per file:

- `Outcome` (`outcome.dfy`): `Option` and `Result`.
- `Players` (`players.dfy`): the row record, the table, the four position
  tags, counting over a squad, `Pick` (the chosen rows in table order).
- `Restrictions` (`restrictions.dfy`): the team-cap and position-cap
  dictionaries built from the restriction lists, and lookup with defaults.
- `LinearProgram` (`linear_program.dfy`): constraints as data (coefficient
  vector, `Le`/`Eq`, bound), satisfaction, and the engine's reply with the
  contract the model relies on (`SolverContract`).
- `Formulation` (`formulation.dfy`): the program `optimize` builds, in the
  order it adds constraints. It also holds the squad rules in plain words
  (`ValidSquad`).
- `Encoding` (`encoding.dfy`): the proof that the generated constraints say
  exactly what the plain-words rules say, and that the objective is the
  squad's points.
- `Optimizer` (`optimizer.dfy`): reading the squad back, and `Optimize` end to
  end.
- `ReferenceSolver` (`reference_solver.dfy`): an exhaustive 0/1 engine proved
  to keep `SolverContract`, so the contract can be met.
- `ForcedRows` (`forced.dfy`): forced rows that alone break the budget, the
  roster size, a position target or a team cap leave no valid squad.
- `IndexLabels` (`index_labels.dfy`): the index-label finding below.
- `WorkedExamples` (`examples_squad.dfy`): a four-player catalogue, where
  budget 30.0 admits exactly the full squad and budget 10.0 admits none.

Prices, budgets and points are `real` (exact rationals); only sums and
comparisons matter. The PuLP engine is a parameter: `Optimize` takes the
engine's `Reply` (a status and one optional value per variable) to the model
that `Formulation.Model` builds.

The model follows `optimize` as written:

- `optimize` never inspects the solver status. The rows whose value equals 1
  are returned whatever the status; an infeasible model gets no special case.
- A pair both forced and banned is not rejected: forced wins, because
  `optimize` tests the selection list first (helpers.py:116-119).
- Positions are free strings. A row whose position is none of `GK`, `DEF`,
  `MID`, `FWD` counts only toward the roster size and its team's total.
- Team and position restrictions are lists of pairs and tuples. A later entry
  for the same team overwrites an earlier one in the dictionaries built at
  helpers.py:55-65.
- The only error modelled is an unknown score column: the data-frame lookup
  at helpers.py:72 raises `KeyError`, modelled as `Failure(UnknownColumn)`.
  The other errors `optimize` can raise are listed under "## Left out".

## Model

| member | source | states |
|---|---|---|
| Restrictions.TeamCapTable | helpers.py:55-58 | every team named in the team list has an entry in the dictionary |
| Restrictions.TeamCapLastWins | helpers.py:55-58 | the cap of a team is the value of the last list entry naming it (dictionary overwrite) |
| Restrictions.TeamCapDefault | helpers.py:107 | a team named by no entry has no dictionary entry and gets the default cap of 2 |
| Restrictions.PositionCapTable | helpers.py:60-65 | every team in the override list has an entry in the dictionary |
| Restrictions.PositionCapLastWins | helpers.py:60-65 | the last override naming a team replaces all four of its position caps |
| Restrictions.PositionCapDefault | helpers.py:109-112 | a team with no override has no dictionary entry and has cap 1 on every position |
| Formulation.Teams | helpers.py:75 | the teams list has no duplicates and holds exactly the teams of the table's rows |
| Formulation.PerTeamConstraints | helpers.py:100-112 | five constraints per team, each over all decision variables |
| Formulation.Fixings | helpers.py:115-119 | at most one fixing constraint per row, each over all decision variables |
| Formulation.BuildConstraints | helpers.py:89-119 | every constraint is over one variable per row; there are 6 + 5·(number of teams) constraints plus at most one per row |
| Formulation.Model | helpers.py:67-90 | the model fails exactly when the score column is missing (KeyError); otherwise it is well formed with one variable per row |
| Players.PickSize | helpers.py:125 | the squad has one member per true decision |
| Players.PickMembers | helpers.py:125 | a player is in the squad iff some chosen row holds it |
| Players.AllChosen | helpers.py:90 | choosing as many rows as there are decisions chooses every row |
| Encoding.DotPoints | helpers.py:84-86 | the objective at a 0/1 point is the sum of the chosen rows' points in column `of` |
| Encoding.DotIndicator | helpers.py:93-112 | each counting constraint's linear form equals the number of chosen rows in its group |
| Encoding.BudgetRule | helpers.py:89 | the budget constraint holds iff the squad's summed price is at most `budget` |
| Encoding.RosterRule | helpers.py:90 | the roster constraint holds iff the squad size equals the sum of the four targets (line 53), an equality and not a bound |
| Encoding.PositionRule | helpers.py:93-96 | the four global ceilings hold iff, for each of GK/DEF/MID/FWD, the number chosen with exactly that tag is at most its target |
| Encoding.TeamSlotRule | helpers.py:109-112 | a team's four position constraints hold iff each per-position count is at most that team's resolved cap |
| Encoding.TeamRule | helpers.py:102-112 | a team's five constraints hold iff its total is within `tr.get(team, 2)` and each position count is within its cap |
| Encoding.PerTeamRule | helpers.py:100-112 | the constraints of a list of teams hold iff every team in the list is within its caps |
| Encoding.FixingRule | helpers.py:116-119 | a row's fixing holds iff a forced row is chosen and a banned, not forced row is not; a row in neither list is unconstrained |
| Encoding.FixingsRule | helpers.py:115-119 | the fixing constraints hold iff every row sharing a forced pair is chosen, and every row sharing a banned-only pair is not |
| Encoding.ConstraintsMatchRules | helpers.py:89-119 | main theorem: a 0/1 selection satisfies every generated constraint iff it is a valid squad (size, budget, ceilings, team and team-position caps, forced and banned) |
| Encoding.ModelMatchesRules | helpers.py:84-119 | the model's feasible points are exactly the valid squads, and the objective at a point is that squad's points |
| ForcedRows.ForcedCountBound | helpers.py:116-117 | every valid squad has, in every group, at least as many players as the forced rows of that group |
| ForcedRows.ForcedOverRoster | helpers.py:116-117 | more forced rows than the roster size (line 90) leaves no valid squad |
| ForcedRows.ForcedOverTarget | helpers.py:116-117 | more forced rows of one position than its global target (lines 93-96) leaves no valid squad |
| ForcedRows.ForcedOverTeamCap | helpers.py:105-117 | more forced rows of a team in the table than `tr.get(team, 2)` (line 107) leaves no valid squad |
| ForcedRows.ForcedOverPositionCap | helpers.py:109-117 | more forced rows of a team in the table at one position than that team's position cap (lines 109-112) leaves no valid squad |
| ForcedRows.ForcedOverBudget | helpers.py:116-117 | with no negative price, forced rows costing more than `budget` (line 89) leave no valid squad |
| Encoding.PerTeamSameCaps | helpers.py:100-112 | a team's constraints depend only on that team's resolved caps, so each team is resolved independently |
| Encoding.AbsentTeamEntryIgnored | helpers.py:100-107 | a team-cap entry for a team with no row in the table changes no constraint |
| Encoding.AbsentPositionEntryIgnored | helpers.py:100-112 | a position override for a team with no row in the table changes no constraint |
| Encoding.OptimalAnswerBeats | helpers.py:123-125 | an optimal answer from an engine keeping its contract is a valid squad with at least the points of any given valid squad |
| Encoding.OptimalAnswerIsBestSquad | helpers.py:123-125 | an optimal answer from an engine keeping its contract is a valid squad, and no valid squad scores more |
| Encoding.InfeasibleAnswerMeansNoSquad | helpers.py:123 | an infeasible verdict from an engine keeping its contract means no selection is a valid squad |
| LinearProgram.OptimaAgree | helpers.py:123 | two optimal answers to the same model have equal objective value, even when the chosen squads differ |
| LinearProgram.SatisfiesAppend | helpers.py:88-119 | adding constraints to a model conjoins them: a list of constraints holds iff both halves hold |
| Optimizer.ExtractSquad | helpers.py:125 | the squad holds exactly the rows whose value is 1, in table order: the picked positions strictly increase, each has value 1, and every row with value 1 is picked |
| Optimizer.Optimize | helpers.py:67-130 | fails iff the score column is missing; otherwise it returns the rows with value 1 whatever the status. Under the engine contract, an Optimal answer is a valid squad with the most points, and Infeasible means no valid squad |
| Optimizer.ExhaustiveEngineFindsSquad | helpers.py:123 | when a valid squad exists, the exhaustive engine answers Optimal |
| ReferenceSolver.BestExtension | helpers.py:123 | the search returns a feasible completion of the prefix that no feasible completion beats, or None only when no completion is feasible |
| ReferenceSolver.Solve | helpers.py:123 | the exhaustive engine answers Optimal or Infeasible and keeps the engine contract |
| IndexLabels.RangeIndexAgrees | helpers.py:70-71 | with the index 0..n-1, the as-written budget constraint is the corrected one |
| IndexLabels.NegativeLabelReadsFromEnd | helpers.py:89 | a negative label is a valid list index counting from the end (-1 reads the last price); only a label outside -n .. n-1 is an index error |
| IndexLabels.SortedFrameSwapsPrices | helpers.py:89 | with index labels 1, 0 the as-written budget admits the 8.0 player alone under budget 5.0 and rejects the 5.0 player |
| WorkedExamples.OnlyFullSquad | helpers.py:90 | when the roster size equals the number of rows, every valid squad takes all of them |
| WorkedExamples.FullSquadValid | helpers.py:89-112 | four players from four teams, one per position, are a valid squad under budget 30.0 and roster (1,1,1,1) |
| WorkedExamples.TightBudgetInfeasible | helpers.py:89-90 | the same players under budget 10.0 admit no valid squad, since all four must be taken and they cost 26.0 |

## Left out

- `read_data` (helpers.py:7-39) is not modelled: file input, HTML scraping, data-frame construction and the float column sums.
- The PuLP solve (helpers.py:123) is not modelled as an algorithm. The engine's reply is a parameter, and `SolverContract` states what the model relies on. `ReferenceSolver` shows the contract can be met; it is not the engine `optimize` calls.
- `model.writeLP("FPL.lp")` (helpers.py:122) and printing the status (helpers.py:127) are side effects with no logical content.
- Floating point is not modelled: prices, budget and points are exact rationals, so rounding in sums is not modelled.
- PuLP variable naming and the `LpVariable.dicts` bookkeeping are not modelled. There is one decision per row position. Index labels appear only in `IndexLabels`. Duplicate index labels, which would share one variable, are not modelled.
- Sparse coefficient lists: PuLP sums over `team_index` only; the model uses one coefficient per row, zero outside the group. The linear forms are equal.
- Choosing a non-score column (`player`, `team`, `price`) as `of` is not modelled. Missing (NaN) cells are not modelled either.
- The docstring shows both the team caps (`('team', [max_player_count])`, helpers.py:49) and the position caps (helpers.py:48) as one-element lists. The model takes both as plain integers, the form the constraint comparisons at lines 107-112 need.
- `SolverContract` assumes an Optimal reply's values are exactly 0.0 or 1.0. A value the engine leaves within its integrality tolerance (0.9999999, say) fails `== 1` at helpers.py:125, so its row is dropped from the squad; this is not modelled, and the Optimal guarantees of `Optimizer.Optimize` and `Encoding.OptimalAnswerIsBestSquad` rest on that assumption.
- The status is not returned: `optimize` only prints it.
- An index error at helpers.py:85 and 89, raised when an index label is outside the price or points list, is not modelled by `Optimize`, which keeps one variable per row position; `IndexLabels.AsWrittenPriceColumn` models it for the price list only.
- An I/O error from `model.writeLP("FPL.lp")` (helpers.py:122) is not modelled: file output is left out.
- PuLP's error from `model.solve()` (helpers.py:123) when no solver engine is available is not modelled: the engine's reply is a parameter.

## Findings

| source | as written | input that shows it | evidently intended | confidence | as-written member | corrected member |
|---|---|---|---|---|---|---|
| helpers.py:89 | Variables are keyed by the frame's index labels (`player_index`), but `player_prices[i]` reads the price list by list position with that label. The same happens for points at line 85 (`player_expected_points[i]`) and for positions at lines 93-96 and 109-112 (`player_position[i]`). Team grouping is not affected: line 105 pairs each label with its own row's team. | A frame sorted or filtered first, with index labels 1, 0 on rows A (price 5.0) and B (price 8.0), and budget 5.0. B alone is charged 5.0 and passes; A alone is charged 8.0 and fails. A negative label raises nothing and reads from the end of the list (-1 reads the last price); a label outside -n .. n-1 raises an index error. | Each row's variable is weighted by that row's own price. This holds for the 0..n-1 index `read_data` produces. | medium; not executed | IndexLabels.SortedFrameSwapsPrices | Encoding.BudgetRule |
