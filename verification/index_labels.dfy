/** `optimize` keys each decision variable by the row's index label in the
    data frame, but reads the price list by list position with that same
    label. The two agree only when the index is 0, 1, ..., n-1, the index
    `read_data` produces; a frame that was sorted or filtered first pairs a
    row's variable with another row's price. The rest of the model uses each
    row's own price (`Formulation.BudgetConstraint`). */
module IndexLabels {
  import opened Outcome
  import opened Players
  import opened LinearProgram
  import opened Formulation

  /** Python list indexing: an index in -n .. n-1 names a list position,
      counting from the end when negative; any other index raises an index
      error. */
  predicate ListIndex(n: nat, index: int)
  {
    -(n as int) <= index < n
  }

  /** The list position a valid index reads. */
  function Position(n: nat, index: int): (p: nat)
    requires ListIndex(n, index)
    ensures p < n
    ensures index >= 0 ==> p == index
    ensures index < 0 ==> p + (-index) == n
  {
    if index < 0 then index + n else index
  }

  /** As written: the budget coefficient of the variable of row `k` is the
      price at list position `labels[k]`; a label outside -n .. n-1 raises an
      index error (None). */
  function AsWrittenPriceColumn(rows: seq<Player>, labels: seq<int>): (r: Option<seq<real>>)
    requires |labels| == |rows|
    ensures r.Some? <==> forall k :: 0 <= k < |labels| ==> ListIndex(|rows|, labels[k])
    ensures r.Some? ==> |r.value| == |rows|
  {
    if forall k :: 0 <= k < |labels| ==> ListIndex(|rows|, labels[k]) then
      Some(seq(|rows|, k requires 0 <= k < |rows| => rows[Position(|rows|, labels[k])].price))
    else None
  }

  /** As written: the budget constraint over the label-keyed variables. */
  function AsWrittenBudget(rows: seq<Player>, labels: seq<int>, budget: real): (r: Option<Constraint>)
    requires |labels| == |rows|
    ensures r.Some? ==> |r.value.coeffs| == |rows| && r.value.rel == Le && r.value.bound == budget
  {
    match AsWrittenPriceColumn(rows, labels)
    case Some(c) => Some(Constraint(c, Le, budget))
    case None => None
  }

  /** The index 0, 1, ..., n-1. */
  function RangeIndex(n: nat): (labels: seq<int>)
    ensures |labels| == n
  {
    seq(n, k => k)
  }

  /** With the default index the as-written budget is the corrected one. */
  lemma RangeIndexAgrees(rows: seq<Player>, budget: real)
    ensures AsWrittenBudget(rows, RangeIndex(|rows|), budget)
         == Some(Constraint(PriceColumn(rows), Le, budget))
  {
    assert AsWrittenPriceColumn(rows, RangeIndex(|rows|)).value == PriceColumn(rows);
  }

  /** A frame sorted so that its labels read 1, 0: the row priced 5.0 is
      charged 8.0 and the row priced 8.0 is charged 5.0. With budget 5.0 the
      as-written constraint admits the 8.0 player alone and rejects the 5.0
      player alone; the corrected constraint does the opposite. */
  lemma SortedFrameSwapsPrices()
    ensures var rows := [Player("A", "X", "MID", 5.0, map[]), Player("B", "Y", "MID", 8.0, map[])];
            var budget := AsWrittenBudget(rows, [1, 0], 5.0).value;
            && Holds(budget, [false, true])
            && Price(Pick(rows, [false, true])) == 8.0
            && !Holds(budget, [true, false])
            && Price(Pick(rows, [true, false])) == 5.0
            && !Holds(BudgetConstraint(rows, Defaults("gw1").(budget := 5.0)), [false, true])
            && Holds(BudgetConstraint(rows, Defaults("gw1").(budget := 5.0)), [true, false])
  {
    var rows := [Player("A", "X", "MID", 5.0, map[]), Player("B", "Y", "MID", 8.0, map[])];
    var c := AsWrittenPriceColumn(rows, [1, 0]).value;
    assert c == [8.0, 5.0];
    assert PriceColumn(rows) == [5.0, 8.0];
    assert Pick(rows, [false, true]) == [rows[1]];
    assert Pick(rows, [true, false]) == [rows[0]];
  }

  /** A negative label raises nothing: -1 reads the last price. With labels
      -1, 0 the row priced 5.0 is charged 8.0 and the row priced 8.0 is
      charged 5.0, while a label of 2 on two rows is an index error. */
  lemma NegativeLabelReadsFromEnd()
    ensures var rows := [Player("A", "X", "MID", 5.0, map[]), Player("B", "Y", "MID", 8.0, map[])];
            && AsWrittenPriceColumn(rows, [-1, 0]) == Some([8.0, 5.0])
            && AsWrittenPriceColumn(rows, [2, 0]).None?
            && AsWrittenPriceColumn(rows, [-3, 0]).None?
  {
    var rows := [Player("A", "X", "MID", 5.0, map[]), Player("B", "Y", "MID", 8.0, map[])];
    assert AsWrittenPriceColumn(rows, [-1, 0]).value == [8.0, 5.0];
    assert !ListIndex(|rows|, [2, 0][0]);
    assert !ListIndex(|rows|, [-3, 0][0]);
  }
}
